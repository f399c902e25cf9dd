/** Worked examples of the ledger's behaviour on concrete data. */
module Scenarios {
  import opened Options
  import opened Calendar
  import opened Seqs
  import opened Ledger
  import opened Filtering
  import opened Transitions

  function SampleOrder(total: int, paid: Option<int>, created: YearMonth): Order {
    Order("o1", "b1", "p1", 1000, total, paid, "INV-1700000000000", created)
  }

  /** An unpaid order of 1000 is listed under "unpaid" with 1000 outstanding. */
  lemma UnpaidScenario()
    ensures var rows := [Row(SampleOrder(1000, Some(0), YearMonth(2025, 0)), Some("Ravi"))];
      var f := Filters(None, StatusIs(Unpaid), AllTime, "");
      && Visible(rows, f, YearMonth(2025, 0)) == rows
      && TotalsOf(rows) == Totals(1000, 0, 1000)
  {
    var rows := [Row(SampleOrder(1000, Some(0), YearMonth(2025, 0)), Some("Ravi"))];
    assert Filter((r: Row) => HasStatus(r.order, Unpaid), rows) == rows by {
      FilterKeepsAll((r: Row) => HasStatus(r.order, Unpaid), rows);
    }
  }

  /** A fully paid order of 500 is listed under "paid" with nothing outstanding. */
  lemma PaidScenario()
    ensures var rows := [Row(SampleOrder(500, Some(500), YearMonth(2025, 0)), Some("Ravi"))];
      var f := Filters(None, StatusIs(Paid), AllTime, "");
      && Visible(rows, f, YearMonth(2025, 0)) == rows
      && TotalsOf(rows).outstanding == 0
  {
    var rows := [Row(SampleOrder(500, Some(500), YearMonth(2025, 0)), Some("Ravi"))];
    assert Filter((r: Row) => HasStatus(r.order, Paid), rows) == rows by {
      FilterKeepsAll((r: Row) => HasStatus(r.order, Paid), rows);
    }
  }

  /** 1000 kg at 20 per kg makes an order of 20000 and takes 1000 kg off the stock. */
  lemma CreateScenario(stock: int)
    ensures var s := Store([Product("p1", "Wheat", 20, stock)], []);
      var r := CreateOrder(s, OrderForm("b1", "p1", Some(1000)), "o1", 1700000000000, YearMonth(2025, 0));
      && r.Ok?
      && r.value.orders[0].totalAmount == 20000
      && r.value.products[0].quantityAvailable == stock - 1000
  {
  }

  /** Paying 300 on an order of 1000 with 200 already paid leaves 500 paid and 500 due. */
  lemma PaymentScenario()
    ensures var o := SampleOrder(1000, Some(200), YearMonth(2025, 0));
      var r := AddPayment([o], o, Some(300));
      && r.Ok? && r.value[0].amountPaid == Some(500) && Due(r.value[0]) == 500
  {
  }

  /** In January 2025 "last month" is December 2024, not December 2025. */
  lemma LastMonthScenario(r: Row)
    ensures InMonth(LastMonth, YearMonth(2025, 0), r) <==> r.order.createdAt == YearMonth(2024, 11)
  {
    LastMonthIsPredecessor(YearMonth(2025, 0), r);
  }
}
