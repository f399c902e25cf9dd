/** The admin dashboard's ledger view: four independent filters over the newest-first order
    list, then sales, collected and outstanding totals over whatever is left. */
module Filtering {
  import opened Options
  import opened Calendar
  import opened Seqs
  import opened Text
  import opened Ledger

  /** The status buttons: all, unpaid, partial, paid. */
  datatype StatusFilter = AllStatuses | StatusIs(status: PaymentStatus)

  /** The date buttons: all time, this month, last month. */
  datatype DateFilter = AllTime | ThisMonth | LastMonth

  /** The dashboard's filter state. `buyer` is the selected buyer name, if any. */
  datatype Filters = Filters(buyer: Option<string>, status: StatusFilter, date: DateFilter, search: string)

  /** The buyer filter applies when a non-empty name is selected (JavaScript truthiness). */
  predicate BuyerActive(buyer: Option<string>) {
    buyer.Some? && buyer.value != ""
  }

  /** The text search applies when the term is not blank. */
  predicate SearchActive(term: string) {
    Trim(term) != []
  }

  /** The whole, untrimmed, lower-cased term occurs in the lower-cased invoice number or the
      lower-cased buyer name; a missing buyer name matches nothing. */
  predicate SearchMatches(term: string, r: Row) {
    || Contains(Lower(term), Lower(r.order.invoiceNumber))
    || (r.buyerName.Some? && Contains(Lower(term), Lower(r.buyerName.value)))
  }

  /** The order was created in the month the date filter names, relative to `now`. */
  predicate InMonth(d: DateFilter, now: YearMonth, r: Row) {
    match d
    case AllTime => true
    case ThisMonth => r.order.createdAt == now
    case LastMonth => r.order.createdAt == PreviousMonth(now)
  }

  function ByBuyer(buyer: Option<string>, rows: seq<Row>): seq<Row> {
    if BuyerActive(buyer) then Filter((r: Row) => r.buyerName == Some(buyer.value), rows) else rows
  }

  function ByStatus(status: StatusFilter, rows: seq<Row>): seq<Row> {
    match status
    case AllStatuses => rows
    case StatusIs(s) => Filter((r: Row) => HasStatus(r.order, s), rows)
  }

  function ByDate(date: DateFilter, now: YearMonth, rows: seq<Row>): seq<Row> {
    if date == AllTime then rows else Filter(r => InMonth(date, now, r), rows)
  }

  function BySearch(term: string, rows: seq<Row>): seq<Row> {
    if SearchActive(term) then Filter(r => SearchMatches(term, r), rows) else rows
  }

  /** The visible orders: buyer, then status, then date, then search, each skipped when inactive. */
  function Visible(rows: seq<Row>, f: Filters, now: YearMonth): seq<Row> {
    BySearch(f.search, ByDate(f.date, now, ByStatus(f.status, ByBuyer(f.buyer, rows))))
  }

  /** A row passes every active filter: the reference definition of the view. */
  predicate Admits(f: Filters, now: YearMonth, r: Row) {
    && (BuyerActive(f.buyer) ==> r.buyerName == f.buyer)
    && (f.status.StatusIs? ==> HasStatus(r.order, f.status.status))
    && (f.date == ThisMonth ==> r.order.createdAt == now)
    && (f.date == LastMonth ==> r.order.createdAt == PreviousMonth(now))
    && (SearchActive(f.search) ==> SearchMatches(f.search, r))
  }

  /** The four filtering stages, so that they can be applied in any order. */
  datatype Stage = BuyerStage | StatusStage | DateStage | SearchStage

  function ApplyStage(st: Stage, f: Filters, now: YearMonth, rows: seq<Row>): seq<Row> {
    match st
    case BuyerStage => ByBuyer(f.buyer, rows)
    case StatusStage => ByStatus(f.status, rows)
    case DateStage => ByDate(f.date, now, rows)
    case SearchStage => BySearch(f.search, rows)
  }

  /** Applies the stages in the order listed. */
  function ApplyStages(stages: seq<Stage>, f: Filters, now: YearMonth, rows: seq<Row>): seq<Row>
    decreases |stages|
  {
    if stages == [] then rows else ApplyStages(stages[1..], f, now, ApplyStage(stages[0], f, now, rows))
  }

  /** What one stage lets through; an inactive stage lets everything through. */
  predicate StageAdmits(st: Stage, f: Filters, now: YearMonth, r: Row) {
    match st
    case BuyerStage => !BuyerActive(f.buyer) || r.buyerName == f.buyer
    case StatusStage => f.status.AllStatuses? || HasStatus(r.order, f.status.status)
    case DateStage => InMonth(f.date, now, r)
    case SearchStage => !SearchActive(f.search) || SearchMatches(f.search, r)
  }

  predicate AllAdmit(stages: seq<Stage>, f: Filters, now: YearMonth, r: Row) {
    forall i :: 0 <= i < |stages| ==> StageAdmits(stages[i], f, now, r)
  }

  lemma ByBuyerIsFilter(f: Filters, now: YearMonth, rows: seq<Row>)
    ensures ByBuyer(f.buyer, rows) == Filter(r => StageAdmits(BuyerStage, f, now, r), rows)
  {
    var p := r => StageAdmits(BuyerStage, f, now, r);
    if BuyerActive(f.buyer) {
      FilterExtensional((r: Row) => r.buyerName == Some(f.buyer.value), p, rows);
    } else {
      FilterKeepsAll(p, rows);
    }
  }

  lemma ByStatusIsFilter(f: Filters, now: YearMonth, rows: seq<Row>)
    ensures ByStatus(f.status, rows) == Filter(r => StageAdmits(StatusStage, f, now, r), rows)
  {
    var p := r => StageAdmits(StatusStage, f, now, r);
    if f.status.StatusIs? {
      FilterExtensional((r: Row) => HasStatus(r.order, f.status.status), p, rows);
    } else {
      FilterKeepsAll(p, rows);
    }
  }

  lemma ByDateIsFilter(f: Filters, now: YearMonth, rows: seq<Row>)
    ensures ByDate(f.date, now, rows) == Filter(r => StageAdmits(DateStage, f, now, r), rows)
  {
    var p := r => StageAdmits(DateStage, f, now, r);
    if f.date != AllTime {
      FilterExtensional(r => InMonth(f.date, now, r), p, rows);
    } else {
      FilterKeepsAll(p, rows);
    }
  }

  lemma BySearchIsFilter(f: Filters, now: YearMonth, rows: seq<Row>)
    ensures BySearch(f.search, rows) == Filter(r => StageAdmits(SearchStage, f, now, r), rows)
  {
    var p := r => StageAdmits(SearchStage, f, now, r);
    if SearchActive(f.search) {
      FilterExtensional(r => SearchMatches(f.search, r), p, rows);
    } else {
      FilterKeepsAll(p, rows);
    }
  }

  /** Each stage is a filter by its own predicate; an inactive one is the identity. */
  lemma ApplyStageIsFilter(st: Stage, f: Filters, now: YearMonth, rows: seq<Row>)
    ensures ApplyStage(st, f, now, rows) == Filter(r => StageAdmits(st, f, now, r), rows)
  {
    match st
    case BuyerStage => ByBuyerIsFilter(f, now, rows);
    case StatusStage => ByStatusIsFilter(f, now, rows);
    case DateStage => ByDateIsFilter(f, now, rows);
    case SearchStage => BySearchIsFilter(f, now, rows);
  }

  lemma AllAdmitUnfold(stages: seq<Stage>, f: Filters, now: YearMonth, r: Row)
    requires stages != []
    ensures AllAdmit(stages, f, now, r) == (StageAdmits(stages[0], f, now, r) && AllAdmit(stages[1..], f, now, r))
  {
    if StageAdmits(stages[0], f, now, r) && AllAdmit(stages[1..], f, now, r) {
      forall j | 0 < j < |stages|
        ensures StageAdmits(stages[j], f, now, r)
      {
        assert stages[j] == stages[1..][j - 1];
      }
    }
  }

  /** Applying a list of stages filters by the conjunction of their predicates. */
  lemma {:induction false} ApplyStagesIsFilter(stages: seq<Stage>, f: Filters, now: YearMonth, rows: seq<Row>)
    ensures ApplyStages(stages, f, now, rows) == Filter(r => AllAdmit(stages, f, now, r), rows)
    decreases |stages|
  {
    var all := r => AllAdmit(stages, f, now, r);
    if stages == [] {
      FilterKeepsAll(all, rows);
      assert Filter(all, rows) == rows;
    } else {
      var first := r => StageAdmits(stages[0], f, now, r);
      var rest := r => AllAdmit(stages[1..], f, now, r);
      var once := ApplyStage(stages[0], f, now, rows);
      ApplyStageIsFilter(stages[0], f, now, rows);
      assert once == Filter(first, rows);
      ApplyStagesIsFilter(stages[1..], f, now, once);
      assert ApplyStages(stages, f, now, rows) == Filter(rest, Filter(first, rows));
      forall i | 0 <= i < |rows|
        ensures all(rows[i]) == (first(rows[i]) && rest(rows[i]))
      {
        AllAdmitUnfold(stages, f, now, rows[i]);
      }
      FilterFilter(first, rest, all, rows);
    }
  }

  /** When every stage is listed, passing all listed stages is passing every active filter. */
  lemma AllStagesAdmit(stages: seq<Stage>, f: Filters, now: YearMonth, r: Row)
    requires BuyerStage in stages && StatusStage in stages && DateStage in stages && SearchStage in stages
    ensures AllAdmit(stages, f, now, r) == Admits(f, now, r)
  {
    if AllAdmit(stages, f, now, r) {
      var b :| 0 <= b < |stages| && stages[b] == BuyerStage;
      var s :| 0 <= s < |stages| && stages[s] == StatusStage;
      var d :| 0 <= d < |stages| && stages[d] == DateStage;
      var t :| 0 <= t < |stages| && stages[t] == SearchStage;
      assert StageAdmits(stages[b], f, now, r) && StageAdmits(stages[s], f, now, r);
      assert StageAdmits(stages[d], f, now, r) && StageAdmits(stages[t], f, now, r);
    }
  }

  /** The stages may be applied in any order, and any of them repeated: as long as every stage
      is applied, the result is the input filtered by the conjunction of the active filters. */
  lemma StageOrderIrrelevant(stages: seq<Stage>, f: Filters, now: YearMonth, rows: seq<Row>)
    requires BuyerStage in stages && StatusStage in stages && DateStage in stages && SearchStage in stages
    ensures ApplyStages(stages, f, now, rows) == Filter(r => Admits(f, now, r), rows)
  {
    ApplyStagesIsFilter(stages, f, now, rows);
    forall i | 0 <= i < |rows|
      ensures AllAdmit(stages, f, now, rows[i]) == Admits(f, now, rows[i])
    {
      AllStagesAdmit(stages, f, now, rows[i]);
    }
    FilterExtensional(r => AllAdmit(stages, f, now, r), r => Admits(f, now, r), rows);
  }

  lemma ApplyStagesCons(st: Stage, rest: seq<Stage>, f: Filters, now: YearMonth, rows: seq<Row>)
    ensures ApplyStages([st] + rest, f, now, rows) == ApplyStages(rest, f, now, ApplyStage(st, f, now, rows))
  {
    assert ([st] + rest)[1..] == rest;
  }

  /** The dashboard's pipeline is the four stages applied in source order. */
  lemma VisibleInSourceOrder(rows: seq<Row>, f: Filters, now: YearMonth)
    ensures Visible(rows, f, now) == ApplyStages([BuyerStage, StatusStage, DateStage, SearchStage], f, now, rows)
  {
    var b := ApplyStage(BuyerStage, f, now, rows);
    var st := ApplyStage(StatusStage, f, now, b);
    var d := ApplyStage(DateStage, f, now, st);
    var v := ApplyStage(SearchStage, f, now, d);
    ApplyStagesCons(BuyerStage, [StatusStage, DateStage, SearchStage], f, now, rows);
    ApplyStagesCons(StatusStage, [DateStage, SearchStage], f, now, b);
    ApplyStagesCons(DateStage, [SearchStage], f, now, st);
    ApplyStagesCons(SearchStage, [], f, now, d);
    assert [BuyerStage] + [StatusStage, DateStage, SearchStage] == [BuyerStage, StatusStage, DateStage, SearchStage];
    assert [StatusStage] + [DateStage, SearchStage] == [StatusStage, DateStage, SearchStage];
    assert [DateStage] + [SearchStage] == [DateStage, SearchStage];
    assert [SearchStage] + [] == [SearchStage];
    assert ApplyStages([], f, now, v) == v;
  }

  /** The dashboard's pipeline keeps exactly the rows that pass every active filter, in order. */
  lemma VisibleIsConjunction(rows: seq<Row>, f: Filters, now: YearMonth)
    ensures Visible(rows, f, now) == Filter(r => Admits(f, now, r), rows)
  {
    var stages := [BuyerStage, StatusStage, DateStage, SearchStage];
    VisibleInSourceOrder(rows, f, now);
    assert stages[0] == BuyerStage && stages[1] == StatusStage && stages[2] == DateStage && stages[3] == SearchStage;
    StageOrderIrrelevant(stages, f, now, rows);
  }

  /** The visible list is an order-preserving subsequence of the input, holding every row that
      passes the filters as often as the input does, and nothing else. */
  lemma VisibleSelectsAdmitted(rows: seq<Row>, f: Filters, now: YearMonth)
    ensures IsSubsequence(Visible(rows, f, now), rows)
    ensures forall r :: r in Visible(rows, f, now) <==> r in rows && Admits(f, now, r)
    ensures forall r :: multiset(Visible(rows, f, now))[r] == if Admits(f, now, r) then multiset(rows)[r] else 0
  {
    VisibleIsConjunction(rows, f, now);
    FilterIsSubsequence(r => Admits(f, now, r), rows);
  }

  /** With no buyer selected, status and date on "all" and a blank search term, every order is
      visible, in the original order. */
  lemma InactiveFiltersKeepAll(rows: seq<Row>, f: Filters, now: YearMonth)
    requires !BuyerActive(f.buyer) && f.status == AllStatuses && f.date == AllTime
    requires forall i :: 0 <= i < |f.search| ==> IsWhitespace(f.search[i])
    ensures Visible(rows, f, now) == rows
  {
    TrimEmptyIff(f.search);
  }

  /** An active search keeps a row exactly when the lower-cased term occurs in the lower-cased
      invoice number or in the lower-cased buyer name. */
  lemma SearchKeepsSubstringMatches(term: string, rows: seq<Row>)
    requires SearchActive(term)
    ensures forall r :: r in BySearch(term, rows) <==>
      && r in rows
      && (|| IsSubstring(Lower(term), Lower(r.order.invoiceNumber))
          || (r.buyerName.Some? && IsSubstring(Lower(term), Lower(r.buyerName.value))))
  {
    forall r: Row
      ensures SearchMatches(term, r) <==>
        || IsSubstring(Lower(term), Lower(r.order.invoiceNumber))
        || (r.buyerName.Some? && IsSubstring(Lower(term), Lower(r.buyerName.value)))
    {
      ContainsIsSubstring(Lower(term), Lower(r.order.invoiceNumber));
      if r.buyerName.Some? {
        ContainsIsSubstring(Lower(term), Lower(r.buyerName.value));
      }
    }
  }

  /** The search is case-insensitive: a term and its lower-cased form match the same rows. */
  lemma SearchCaseInsensitive(term: string, r: Row)
    ensures SearchMatches(Lower(term), r) == SearchMatches(term, r)
  {
    LowerIdempotent(term);
  }

  /** "Last month" keeps exactly the orders of the calendar month before `now`: December of the
      previous year when `now` is in January. */
  lemma LastMonthIsPredecessor(now: YearMonth, r: Row)
    requires Valid(now)
    ensures InMonth(LastMonth, now, r) <==>
      if now.month0 == 0 then r.order.createdAt == YearMonth(now.year - 1, 11)
      else r.order.createdAt == YearMonth(now.year, now.month0 - 1)
  {
    PreviousMonthRollsOver(now);
  }

  function RowTotal(r: Row): int { r.order.totalAmount }
  function RowPaid(r: Row): int { PaidOrZero(r.order) }
  function RowDue(r: Row): int { Due(r.order) }

  /** The summary cards. */
  datatype Totals = Totals(sales: int, collected: int, outstanding: int)

  /** The summary cards' figures over `rows`: total sales, amount collected, and the difference. */
  function TotalsOf(rows: seq<Row>): Totals {
    var sales := SumOf(RowTotal, rows);
    var collected := SumOf(RowPaid, rows);
    Totals(sales, collected, sales - collected)
  }

  /** The outstanding figure is the sum of the balances shown on the individual order cards. */
  lemma OutstandingIsSumOfDues(rows: seq<Row>)
    ensures TotalsOf(rows).outstanding == SumOf(RowDue, rows)
  {
    SumOfDifference(RowTotal, RowPaid, RowDue, rows);
  }

  /** When every order has a payment between 0 and its total, nothing is over-collected:
      0 <= collected <= sales and the outstanding figure is not negative. */
  lemma CollectedWithinSales(rows: seq<Row>)
    requires forall i :: 0 <= i < |rows| ==> 0 <= RowPaid(rows[i]) <= RowTotal(rows[i])
    ensures 0 <= TotalsOf(rows).collected <= TotalsOf(rows).sales
    ensures TotalsOf(rows).outstanding >= 0
  {
    SumOfMonotone(RowPaid, RowTotal, rows);
    SumOfMonotone(r => 0, RowPaid, rows);
    assert SumOf(r => 0, rows) == 0 by {
      ZeroSum(rows);
    }
  }

  lemma {:induction false} ZeroSum(rows: seq<Row>)
    ensures SumOf(r => 0, rows) == 0
  {
    if rows != [] {
      ZeroSum(rows[1..]);
    }
  }

  /** The figures of the visible orders and of the hidden ones add up to those of all orders. */
  lemma VisibleAndHiddenTotalsAddUp(rows: seq<Row>, f: Filters, now: YearMonth)
    ensures TotalsOf(Visible(rows, f, now)).sales + TotalsOf(Filter(r => !Admits(f, now, r), rows)).sales
            == TotalsOf(rows).sales
    ensures TotalsOf(Visible(rows, f, now)).collected + TotalsOf(Filter(r => !Admits(f, now, r), rows)).collected
            == TotalsOf(rows).collected
    ensures TotalsOf(Visible(rows, f, now)).outstanding + TotalsOf(Filter(r => !Admits(f, now, r), rows)).outstanding
            == TotalsOf(rows).outstanding
  {
    var shown := r => Admits(f, now, r);
    var hidden := r => !Admits(f, now, r);
    VisibleIsConjunction(rows, f, now);
    SumOfPartition(RowTotal, shown, hidden, rows);
    SumOfPartition(RowPaid, shown, hidden, rows);
  }

  /** The summary figures as the source folds them: left to right from 0, the outstanding
      figure taken as the difference of the other two. */
  method ReduceTotals(rows: seq<Row>) returns (t: Totals)
    ensures t == TotalsOf(rows)
    ensures t.outstanding == SumOf(RowDue, rows)
    ensures rows == [] ==> t == Totals(0, 0, 0)
  {
    var sales, collected := 0, 0;
    for i := 0 to |rows|
      invariant sales == SumOf(RowTotal, rows[..i])
      invariant collected == SumOf(RowPaid, rows[..i])
    {
      SumOfSnoc(RowTotal, rows[..i], rows[i]);
      SumOfSnoc(RowPaid, rows[..i], rows[i]);
      assert rows[..i + 1] == rows[..i] + [rows[i]];
      sales := sales + rows[i].order.totalAmount;
      collected := collected + PaidOrZero(rows[i].order);
    }
    assert rows[..|rows|] == rows;
    t := Totals(sales, collected, sales - collected);
    OutstandingIsSumOfDues(rows);
  }

  /** The dashboard: the visible orders and the summary figures computed over them alone. */
  method AdminView(rows: seq<Row>, f: Filters, now: YearMonth) returns (visible: seq<Row>, t: Totals)
    ensures visible == Filter(r => Admits(f, now, r), rows)
    ensures IsSubsequence(visible, rows)
    ensures t.sales == SumOf(RowTotal, visible) && t.collected == SumOf(RowPaid, visible)
    ensures t.outstanding == t.sales - t.collected == SumOf(RowDue, visible)
  {
    visible := Visible(rows, f, now);
    VisibleIsConjunction(rows, f, now);
    VisibleSelectsAdmitted(rows, f, now);
    t := ReduceTotals(visible);
  }
}
