/** The ledger's records and the amounts derived from them. */
module Ledger {
  import opened Options
  import opened Calendar

  /** A stored order. `amountPaid` is nullable in the store; `createdAt` is the calendar month of
      the creation timestamp, already decoded in local time. */
  datatype Order = Order(
    id: string,
    buyerId: string,
    productId: string,
    quantity: int,
    totalAmount: int,
    amountPaid: Option<int>,
    invoiceNumber: string,
    createdAt: YearMonth)

  /** A catalog product; prices and stock are whole units (rupees per kg, kg). */
  datatype Product = Product(id: string, name: string, pricePerKg: int, quantityAvailable: int)

  /** An order as the dashboard lists it: joined with its buyer's name, which is missing when
      the buyer record or its name is. */
  datatype Row = Row(order: Order, buyerName: Option<string>)

  /** `amount_paid || 0`: a missing payment counts as nothing paid. */
  function PaidOrZero(o: Order): int {
    o.amountPaid.GetOr(0)
  }

  /** The balance still owed, `total_amount - (amount_paid || 0)`; negative after overpayment. */
  function Due(o: Order): int {
    o.totalAmount - PaidOrZero(o)
  }

  /** The three payment states the dashboard can filter on. */
  datatype PaymentStatus = Unpaid | Partial | Paid

  /** The status test of the dashboard filter. "Unpaid" is a strict comparison with 0, so an
      order whose payment is missing is never unpaid, and `null > 0` is false, so it is never
      partial either. */
  predicate HasStatus(o: Order, s: PaymentStatus) {
    match s
    case Unpaid => o.amountPaid == Some(0)
    case Partial => o.amountPaid.Some? && o.amountPaid.value > 0 && Due(o) > 0
    case Paid => Due(o) <= 0
  }

  /** An order as a well-behaved client records it: a payment amount is present and not
      negative, and the order is worth something. */
  predicate WellFormed(o: Order) {
    o.amountPaid.Some? && o.amountPaid.value >= 0 && o.totalAmount > 0
  }

  /** The status of a well-formed order by its paid amount alone: nothing paid, some but less
      than the total, or at least the total. */
  function Classify(o: Order): PaymentStatus
    requires WellFormed(o)
  {
    var paid := o.amountPaid.value;
    if paid == 0 then Unpaid else if paid < o.totalAmount then Partial else Paid
  }

  /** On well-formed orders the three status tests partition: each order passes exactly the
      test of its class. */
  lemma StatusPartition(o: Order, s: PaymentStatus)
    requires WellFormed(o)
    ensures HasStatus(o, s) <==> s == Classify(o)
  {
  }

  /** An order whose payment was never recorded and that is worth something passes no status test. */
  lemma MissingPaymentHasNoStatus(o: Order, s: PaymentStatus)
    requires o.amountPaid.None? && o.totalAmount > 0
    ensures !HasStatus(o, s)
  {
  }

  /** Paying more than the total still counts as paid, and the balance goes negative. */
  lemma OverpaymentIsPaid(o: Order)
    requires o.amountPaid.Some? && o.amountPaid.value > o.totalAmount
    ensures HasStatus(o, Paid) && !HasStatus(o, Partial)
    ensures Due(o) < 0
  {
  }

  /** Without the well-formedness assumption the tests may overlap: an order worth nothing with
      nothing paid is both unpaid and paid. */
  lemma ZeroTotalOverlaps(o: Order)
    requires o.amountPaid == Some(0) && o.totalAmount <= 0
    ensures HasStatus(o, Unpaid) && HasStatus(o, Paid)
  {
  }
}
