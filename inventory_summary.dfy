/**
 * The stock aggregate: for one (branch, item) pair, one entry per item
 * condition with the quantity on hand and the quantity reserved, plus totals
 * over the entries and a version that every applied transaction bumps.
 */
module Summaries {
  import opened Common
  import opened TransactionLines
  import Transactions

  datatype InventoryEntry = InventoryEntry(
    condition: ItemCondition,
    onHand: int,
    reserved: int,
    latestEntryDateUtc: Instant)

  /** Index of the first entry for a condition, if any (FirstOrDefault). */
  function FindEntry(entries: seq<InventoryEntry>, condition: ItemCondition): (r: Option<nat>)
    ensures r.Some? ==> r.value < |entries| && entries[r.value].condition == condition
    ensures r.Some? ==> forall j | 0 <= j < r.value :: entries[j].condition != condition
    ensures r.None? <==> forall j | 0 <= j < |entries| :: entries[j].condition != condition
    decreases |entries|
  {
    if |entries| == 0 then None
    else if entries[0].condition == condition then Some(0)
    else match FindEntry(entries[1..], condition)
      case None => None
      case Some(i) => Some(i + 1)
  }

  /** Replacing the entry FindEntry found by one of the same condition keeps it found there. */
  lemma {:induction false} FindEntryAfterUpdate(entries: seq<InventoryEntry>, k: nat, e: InventoryEntry)
    requires FindEntry(entries, e.condition) == Some(k)
    ensures FindEntry(entries[k := e], e.condition) == Some(k)
    decreases |entries|
  {
    if k > 0 {
      assert entries[k := e][1..] == entries[1..][k - 1 := e];
      FindEntryAfterUpdate(entries[1..], k - 1, e);
    }
  }

  /** On-hand quantity of the entry for a condition, 0 when there is none. */
  function OnHandOf(entries: seq<InventoryEntry>, condition: ItemCondition): int
  {
    match FindEntry(entries, condition)
    case None => 0
    case Some(k) => entries[k].onHand
  }

  /** Entries with the same conditions at the same places have their entries for a condition at the same place. */
  lemma {:induction false} FindEntrySameConditions(a: seq<InventoryEntry>, b: seq<InventoryEntry>, condition: ItemCondition)
    requires |a| == |b| && forall i | 0 <= i < |a| :: a[i].condition == b[i].condition
    ensures FindEntry(a, condition) == FindEntry(b, condition)
    decreases |a|
  {
    if |a| > 0 && a[0].condition != condition {
      FindEntrySameConditions(a[1..], b[1..], condition);
    }
  }

  /** Appending an entry leaves the entry found for a condition in place, or finds the new one. */
  lemma {:induction false} FindEntryAppend(entries: seq<InventoryEntry>, e: InventoryEntry, condition: ItemCondition)
    ensures FindEntry(entries + [e], condition)
         == if FindEntry(entries, condition).Some? then FindEntry(entries, condition)
            else if e.condition == condition then Some(|entries|) else None
    decreases |entries|
  {
    if |entries| == 0 {
      assert entries + [e] == [e];
    } else {
      assert (entries + [e])[1..] == entries[1..] + [e];
      FindEntryAppend(entries[1..], e, condition);
    }
  }

  function SumOnHand(entries: seq<InventoryEntry>): int
  {
    if |entries| == 0 then 0 else entries[0].onHand + SumOnHand(entries[1..])
  }

  function SumReserved(entries: seq<InventoryEntry>): int
  {
    if |entries| == 0 then 0 else entries[0].reserved + SumReserved(entries[1..])
  }

  /** The lines of a transaction that concern one item, in order (LINQ Where). */
  function RelevantLines(lines: seq<InventoryTransactionLine>, itemCode: string): (r: seq<InventoryTransactionLine>)
    ensures |r| <= |lines|
    ensures forall i | 0 <= i < |r| :: r[i].itemCode == itemCode
    ensures forall l :: l in r <==> l in lines && l.itemCode == itemCode
    decreases |lines|
  {
    if |lines| == 0 then []
    else if lines[0].itemCode == itemCode then [lines[0]] + RelevantLines(lines[1..], itemCode)
    else RelevantLines(lines[1..], itemCode)
  }

  lemma {:induction false} RelevantLinesAppend(a: seq<InventoryTransactionLine>, b: seq<InventoryTransactionLine>, itemCode: string)
    ensures RelevantLines(a + b, itemCode) == RelevantLines(a, itemCode) + RelevantLines(b, itemCode)
    decreases |a|
  {
    if |a| == 0 {
      assert a + b == b;
    } else {
      assert (a + b)[0] == a[0];
      assert (a + b)[1..] == a[1..] + b;
      RelevantLinesAppend(a[1..], b, itemCode);
    }
  }

  /**
   * Lines for other items are ignored: inserting them anywhere in a
   * transaction does not change the lines a summary applies.
   */
  lemma OtherItemsIgnored(a: seq<InventoryTransactionLine>, others: seq<InventoryTransactionLine>,
                          b: seq<InventoryTransactionLine>, itemCode: string)
    requires forall i | 0 <= i < |others| :: others[i].itemCode != itemCode
    ensures RelevantLines(a + others + b, itemCode) == RelevantLines(a + b, itemCode)
  {
    calc {
      RelevantLines(a + others + b, itemCode);
      { RelevantLinesAppend(a + others, b, itemCode); }
      RelevantLines(a + others, itemCode) + RelevantLines(b, itemCode);
      { RelevantLinesAppend(a, others, itemCode); }
      RelevantLines(a, itemCode) + RelevantLines(others, itemCode) + RelevantLines(b, itemCode);
      { NoRelevantLines(others, itemCode); }
      RelevantLines(a, itemCode) + RelevantLines(b, itemCode);
      { RelevantLinesAppend(a, b, itemCode); }
      RelevantLines(a + b, itemCode);
    }
  }

  lemma {:induction false} NoRelevantLines(lines: seq<InventoryTransactionLine>, itemCode: string)
    requires forall i | 0 <= i < |lines| :: lines[i].itemCode != itemCode
    ensures RelevantLines(lines, itemCode) == []
    decreases |lines|
  {
    if |lines| > 0 {
      NoRelevantLines(lines[1..], itemCode);
    }
  }

  /** The entries with one for the condition appended (OnHand 0, Reserved 0) when missing. */
  function EnsureEntry(entries: seq<InventoryEntry>, condition: ItemCondition, date: Instant): (r: seq<InventoryEntry>)
    ensures FindEntry(r, condition).Some?
  {
    if FindEntry(entries, condition).None? then
      var r := entries + [InventoryEntry(condition, 0, 0, date)];
      assert r[|entries|].condition == condition;
      r
    else entries
  }

  /** In adds, Out subtracts, Adjust sets the absolute quantity. */
  function NewOnHand(transactionType: TransactionType, current: int, quantity: int): int
  {
    match transactionType
    case In => current + quantity
    case Out => current - quantity
    case Adjust => quantity
  }

  /**
   * Applying a sequence of lines, one at a time.  An Out line that leaves its
   * entry below zero stops the application: the entries are then as they
   * were at that moment (the negative quantity written, the date not yet).
   */
  datatype ApplyOutcome =
    | Applied(entries: seq<InventoryEntry>)
    | Rejected(entries: seq<InventoryEntry>, condition: ItemCondition)

  function ApplyLines(entries: seq<InventoryEntry>, transactionType: TransactionType,
                      lines: seq<InventoryTransactionLine>, date: Instant): ApplyOutcome
    decreases |lines|
  {
    if |lines| == 0 then Applied(entries)
    else
      var line := lines[0];
      var es := EnsureEntry(entries, line.condition, date);
      var k := FindEntry(es, line.condition).value;
      var onHand := NewOnHand(transactionType, es[k].onHand, line.quantity);
      if transactionType == Out && onHand < 0 then
        Rejected(es[k := es[k].(onHand := onHand)], line.condition)
      else
        ApplyLines(es[k := es[k].(onHand := onHand, latestEntryDateUtc := date)], transactionType, lines[1..], date)
  }

  /** Applying a non-empty sequence of lines is applying its first line, then the rest. */
  lemma ApplyLinesHead(entries: seq<InventoryEntry>, transactionType: TransactionType,
                       lines: seq<InventoryTransactionLine>, date: Instant)
    requires |lines| > 0
    ensures match ApplyLines(entries, transactionType, [lines[0]], date)
            case Rejected(_, _) => ApplyLines(entries, transactionType, lines, date)
                                   == ApplyLines(entries, transactionType, [lines[0]], date)
            case Applied(next) => ApplyLines(entries, transactionType, lines, date)
                                  == ApplyLines(next, transactionType, lines[1..], date)
  {
    assert [lines[0]][1..] == [];
  }

  /** One applied step of the loop, stated for the whole of the remaining lines. */
  lemma ApplyLinesStep(before: seq<InventoryEntry>, after: seq<InventoryEntry>, transactionType: TransactionType,
                       lines: seq<InventoryTransactionLine>, date: Instant, applied: bool)
    requires |lines| > 0
    requires ApplyLines(before, transactionType, [lines[0]], date)
          == if applied then Applied(after) else Rejected(after, lines[0].condition)
    ensures ApplyLines(before, transactionType, lines, date)
         == if applied then ApplyLines(after, transactionType, lines[1..], date)
            else Rejected(after, lines[0].condition)
  {
    ApplyLinesHead(before, transactionType, lines, date);
  }

  predicate AllOnHandNonNegative(entries: seq<InventoryEntry>)
  {
    forall i | 0 <= i < |entries| :: entries[i].onHand >= 0
  }

  predicate AllQuantitiesNonNegative(lines: seq<InventoryTransactionLine>)
  {
    forall i | 0 <= i < |lines| :: lines[i].quantity >= 0
  }

  /** At most one entry per condition. */
  predicate DistinctConditions(entries: seq<InventoryEntry>)
  {
    forall i, j | 0 <= i < j < |entries| :: entries[i].condition != entries[j].condition
  }

  /** In and Adjust never fail; only Out can be rejected. */
  lemma {:induction false} OnlyOutIsRejected(entries: seq<InventoryEntry>, transactionType: TransactionType,
                                             lines: seq<InventoryTransactionLine>, date: Instant)
    requires transactionType != Out
    ensures ApplyLines(entries, transactionType, lines, date).Applied?
    decreases |lines|
  {
    if |lines| > 0 {
      var line := lines[0];
      var es := EnsureEntry(entries, line.condition, date);
      var k := FindEntry(es, line.condition).value;
      var onHand := NewOnHand(transactionType, es[k].onHand, line.quantity);
      OnlyOutIsRejected(es[k := es[k].(onHand := onHand, latestEntryDateUtc := date)], transactionType, lines[1..], date);
    }
  }

  /**
   * With non-negative stock and non-negative quantities, a successful
   * application leaves every entry non-negative.
   */
  lemma {:induction false} ApplyLinesKeepsStockNonNegative(entries: seq<InventoryEntry>, transactionType: TransactionType,
                                                           lines: seq<InventoryTransactionLine>, date: Instant)
    requires AllOnHandNonNegative(entries)
    requires AllQuantitiesNonNegative(lines)
    ensures ApplyLines(entries, transactionType, lines, date).Applied? ==>
              AllOnHandNonNegative(ApplyLines(entries, transactionType, lines, date).entries)
    decreases |lines|
  {
    if |lines| > 0 {
      var line := lines[0];
      assert line.quantity >= 0;
      var es := EnsureEntry(entries, line.condition, date);
      assert AllOnHandNonNegative(es);
      var k := FindEntry(es, line.condition).value;
      var onHand := NewOnHand(transactionType, es[k].onHand, line.quantity);
      if !(transactionType == Out && onHand < 0) {
        var next := es[k := es[k].(onHand := onHand, latestEntryDateUtc := date)];
        assert AllOnHandNonNegative(next);
        assert AllQuantitiesNonNegative(lines[1..]) by {
          forall i | 0 <= i < |lines[1..]| ensures lines[1..][i].quantity >= 0 {
            assert lines[1..][i] == lines[i + 1];
          }
        }
        ApplyLinesKeepsStockNonNegative(next, transactionType, lines[1..], date);
      }
    }
  }

  /**
   * Applying never removes or reorders entries, never changes a condition or
   * a reserved quantity, and appends entries only with nothing reserved.
   */
  lemma {:induction false} ApplyLinesKeepsReserved(entries: seq<InventoryEntry>, transactionType: TransactionType,
                                                   lines: seq<InventoryTransactionLine>, date: Instant)
    ensures var r := ApplyLines(entries, transactionType, lines, date).entries;
      && |entries| <= |r|
      && (forall i | 0 <= i < |entries| :: r[i].condition == entries[i].condition && r[i].reserved == entries[i].reserved)
      && (forall i | |entries| <= i < |r| :: r[i].reserved == 0)
    decreases |lines|
  {
    if |lines| > 0 {
      var line := lines[0];
      var es := EnsureEntry(entries, line.condition, date);
      var k := FindEntry(es, line.condition).value;
      var onHand := NewOnHand(transactionType, es[k].onHand, line.quantity);
      if !(transactionType == Out && onHand < 0) {
        var next := es[k := es[k].(onHand := onHand, latestEntryDateUtc := date)];
        ApplyLinesKeepsReserved(next, transactionType, lines[1..], date);
      }
    }
  }

  lemma EnsureEntryKeepsDistinct(entries: seq<InventoryEntry>, condition: ItemCondition, date: Instant)
    requires DistinctConditions(entries)
    ensures DistinctConditions(EnsureEntry(entries, condition, date))
  {
    if FindEntry(entries, condition).None? {
      var r := EnsureEntry(entries, condition, date);
      forall i, j | 0 <= i < j < |r| ensures r[i].condition != r[j].condition {
        if j == |entries| {
          assert r[i] == entries[i];
        } else {
          assert r[i] == entries[i] && r[j] == entries[j];
        }
      }
    }
  }

  lemma UpdateKeepsDistinct(es: seq<InventoryEntry>, k: nat, e: InventoryEntry)
    requires DistinctConditions(es) && k < |es| && e.condition == es[k].condition
    ensures DistinctConditions(es[k := e])
  {
    var r := es[k := e];
    forall i, j | 0 <= i < j < |r| ensures r[i].condition != r[j].condition {
      assert r[i].condition == es[i].condition && r[j].condition == es[j].condition;
    }
  }

  /** Entries stay one per condition. */
  lemma {:induction false} ApplyLinesKeepsConditionsDistinct(entries: seq<InventoryEntry>, transactionType: TransactionType,
                                                             lines: seq<InventoryTransactionLine>, date: Instant)
    requires DistinctConditions(entries)
    ensures DistinctConditions(ApplyLines(entries, transactionType, lines, date).entries)
    decreases |lines|
  {
    if |lines| > 0 {
      var line := lines[0];
      var es := EnsureEntry(entries, line.condition, date);
      EnsureEntryKeepsDistinct(entries, line.condition, date);
      var k := FindEntry(es, line.condition).value;
      var onHand := NewOnHand(transactionType, es[k].onHand, line.quantity);
      if !(transactionType == Out && onHand < 0) {
        var next := es[k := es[k].(onHand := onHand, latestEntryDateUtc := date)];
        UpdateKeepsDistinct(es, k, es[k].(onHand := onHand, latestEntryDateUtc := date));
        ApplyLinesKeepsConditionsDistinct(next, transactionType, lines[1..], date);
      }
    }
  }

  /**
   * One line on its own: In adds its quantity to the entry for its condition
   * (0 when missing), Adjust sets that entry to exactly the quantity, Out
   * subtracts and is rejected exactly when the result would be negative.  A
   * missing entry is appended, and the touched entry carries the date.
   */
  lemma SingleLine(entries: seq<InventoryEntry>, transactionType: TransactionType,
                   line: InventoryTransactionLine, date: Instant)
    ensures var r := ApplyLines(entries, transactionType, [line], date);
      && (r.Applied? <==> transactionType != Out || OnHandOf(entries, line.condition) >= line.quantity)
      && (r.Applied? ==> OnHandOf(r.entries, line.condition)
                          == NewOnHand(transactionType, OnHandOf(entries, line.condition), line.quantity))
      && (r.Applied? ==> match FindEntry(r.entries, line.condition)
                          case Some(k) => r.entries[k].latestEntryDateUtc == date
                          case None => false)
      && (FindEntry(entries, line.condition).None? ==>
            |r.entries| == |entries| + 1 && r.entries[|entries|].condition == line.condition
            && r.entries[|entries|].reserved == 0)
  {
    var es := EnsureEntry(entries, line.condition, date);
    var k := FindEntry(es, line.condition).value;
    assert OnHandOf(es, line.condition) == OnHandOf(entries, line.condition);
    var onHand := NewOnHand(transactionType, es[k].onHand, line.quantity);
    if !(transactionType == Out && onHand < 0) {
      var e := es[k].(onHand := onHand, latestEntryDateUtc := date);
      FindEntryAfterUpdate(es, k, e);
      assert ApplyLines(entries, transactionType, [line], date) == Applied(es[k := e]);
    }
  }

  /**
   * A worked history on a fresh summary: In 10 New, then Out 4 New leaves 6
   * on hand; a further Out of 7 is rejected.
   */
  lemma InThenOutScenario(inLine: InventoryTransactionLine, outLine: InventoryTransactionLine,
                          bigOutLine: InventoryTransactionLine, d1: Instant, d2: Instant, d3: Instant)
    requires inLine.condition == New && inLine.quantity == 10
    requires outLine.condition == New && outLine.quantity == 4
    requires bigOutLine.condition == New && bigOutLine.quantity == 7
    ensures ApplyLines([], In, [inLine], d1).Applied?
    ensures var afterIn := ApplyLines([], In, [inLine], d1).entries;
      && ApplyLines(afterIn, Out, [outLine], d2).Applied?
      && OnHandOf(ApplyLines(afterIn, Out, [outLine], d2).entries, New) == 6
      && ApplyLines(ApplyLines(afterIn, Out, [outLine], d2).entries, Out, [bigOutLine], d3).Rejected?
  {
    SingleLine([], In, inLine, d1);
    var afterIn := ApplyLines([], In, [inLine], d1).entries;
    SingleLine(afterIn, Out, outLine, d2);
    var afterOut := ApplyLines(afterIn, Out, [outLine], d2).entries;
    SingleLine(afterOut, Out, bigOutLine, d3);
  }

  class InventorySummary {
    var id: string
    var branchCode: string
    var itemCode: string
    var entries: seq<InventoryEntry>
    var onHandTotal: int
    var reservedTotal: int
    var version: int
    var updatedAtUtc: Instant

    /** The totals agree with the entries. */
    predicate TotalsConsistent()
      reads this
    {
      onHandTotal == SumOnHand(entries) && reservedTotal == SumReserved(entries)
    }

    constructor (id: string, branchCode: string, itemCode: string, entries: seq<InventoryEntry>,
                 onHandTotal: int, reservedTotal: int, version: int, updatedAtUtc: Instant)
      ensures this.id == id && this.branchCode == branchCode && this.itemCode == itemCode
      ensures this.entries == entries
      ensures this.onHandTotal == onHandTotal && this.reservedTotal == reservedTotal
      ensures this.version == version && this.updatedAtUtc == updatedAtUtc
    {
      this.id := id;
      this.branchCode := branchCode;
      this.itemCode := itemCode;
      this.entries := entries;
      this.onHandTotal := onHandTotal;
      this.reservedTotal := reservedTotal;
      this.version := version;
      this.updatedAtUtc := updatedAtUtc;
    }

    /**
     * One line of the loop: the entry for the line's condition (added when
     * missing) gets its new quantity and, unless an Out line drove it below
     * zero, the transaction date.  Only the entries change.
     */
    method ApplyLine(transactionType: TransactionType, line: InventoryTransactionLine, date: Instant)
      returns (applied: bool)
      modifies this
      ensures id == old(id) && branchCode == old(branchCode) && itemCode == old(itemCode)
      ensures updatedAtUtc == old(updatedAtUtc) && version == old(version)
      ensures onHandTotal == old(onHandTotal) && reservedTotal == old(reservedTotal)
      ensures ApplyLines(old(entries), transactionType, [line], date)
           == if applied then Applied(entries) else Rejected(entries, line.condition)
    {
      ghost var es := EnsureEntry(entries, line.condition, date);
      if FindEntry(entries, line.condition).None? {
        entries := entries + [InventoryEntry(line.condition, 0, 0, date)];
      }
      assert entries == es;
      var k := FindEntry(entries, line.condition).value;
      var entry := entries[k];
      match transactionType {
        case In =>
          entry := entry.(onHand := entry.onHand + line.quantity);
        case Out =>
          entry := entry.(onHand := entry.onHand - line.quantity);
          if entry.onHand < 0 {
            entries := entries[k := entry];
            return false;
          }
        case Adjust =>
          entry := entry.(onHand := line.quantity);
      }
      entries := entries[k := entry.(latestEntryDateUtc := date)];
      return true;
    }

    /**
     * Applies the lines of the transaction that concern this item, one by
     * one, to the entries.  On success the totals are recomputed from the
     * entries and the version goes up by exactly one, however many lines
     * applied.  An Out line that drives an entry negative aborts with
     * NegativeStock: totals and version then keep their old values.
     */
    method ApplyTransaction(transaction: Transactions.InventoryTransaction) returns (outcome: Outcome)
      modifies this
      ensures id == old(id) && branchCode == old(branchCode) && itemCode == old(itemCode)
      ensures updatedAtUtc == old(updatedAtUtc)
      ensures var r := ApplyLines(old(entries), transaction.transactionType,
                                  RelevantLines(transaction.lines, itemCode), transaction.transactionDateUtc);
        && entries == r.entries
        && (r.Applied? ==> outcome == Pass && TotalsConsistent() && version == old(version) + 1)
        && (r.Rejected? ==>
              && outcome == Fail(NegativeStock(itemCode, r.condition))
              && onHandTotal == old(onHandTotal) && reservedTotal == old(reservedTotal)
              && version == old(version))
    {
      var transactionType := transaction.transactionType;
      var date := transaction.transactionDateUtc;
      var relevantLines := RelevantLines(transaction.lines, itemCode);
      ghost var spec := ApplyLines(entries, transactionType, relevantLines, date);
      var i := 0;
      while i < |relevantLines|
        invariant 0 <= i <= |relevantLines|
        invariant spec == ApplyLines(entries, transactionType, relevantLines[i..], date)
        invariant id == old(id) && branchCode == old(branchCode) && itemCode == old(itemCode)
        invariant updatedAtUtc == old(updatedAtUtc) && version == old(version)
        invariant onHandTotal == old(onHandTotal) && reservedTotal == old(reservedTotal)
      {
        var line := relevantLines[i];
        ghost var before := entries;
        ghost var rest := relevantLines[i..];
        assert rest[0] == line && rest[1..] == relevantLines[i + 1..];
        var applied := ApplyLine(transactionType, line, date);
        ApplyLinesStep(before, entries, transactionType, rest, date, applied);
        if !applied {
          assert spec == Rejected(entries, line.condition);
          return Fail(NegativeStock(itemCode, line.condition));
        }
        assert spec == ApplyLines(entries, transactionType, relevantLines[i + 1..], date);
        i := i + 1;
      }
      assert relevantLines[i..] == [];
      assert spec == Applied(entries);
      onHandTotal := SumOnHand(entries);
      reservedTotal := SumReserved(entries);
      version := version + 1;
      return Pass;
    }

    /** OnHand - Reserved of the entry for the condition, 0 when there is none. */
    function GetAvailable(condition: ItemCondition): (available: int)
      reads this
      ensures (forall i | 0 <= i < |entries| :: entries[i].condition != condition) ==> available == 0
      ensures forall i | 0 <= i < |entries| && entries[i].condition == condition
                         && (forall j | 0 <= j < i :: entries[j].condition != condition)
                :: available == entries[i].onHand - entries[i].reserved
    {
      match FindEntry(entries, condition)
      case None => 0
      case Some(k) => entries[k].onHand - entries[k].reserved
    }
  }
}
