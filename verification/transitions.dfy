/** The two writes the dashboard makes, creating an order and recording a payment, and the
    public payment page. Each write is one atomic step from one store state to the next. */
module Transitions {
  import opened Options
  import opened Calendar
  import opened Seqs
  import opened Text
  import opened Ledger

  /** The tables the writes touch: the product catalog and the orders, newest first. */
  datatype Store = Store(products: seq<Product>, orders: seq<Order>)

  /** The create-order form: the selected buyer and product ids, "" while nothing is selected,
      and the quantity, `None` while the field is empty. */
  datatype OrderForm = OrderForm(buyerId: string, productId: string, quantity: Option<int>)

  /** Why an order was not created. `MissingField` is the "Fill all fields" alert;
      `UnknownProduct` is the failed product lookup, which throws before anything is written. */
  datatype CreateError = MissingField | UnknownProduct

  predicate UniqueProductIds(products: seq<Product>) {
    forall i, j :: 0 <= i < j < |products| ==> products[i].id != products[j].id
  }

  predicate UniqueOrderIds(orders: seq<Order>) {
    forall i, j :: 0 <= i < j < |orders| ==> orders[i].id != orders[j].id
  }

  /** `products.find(p => p.id === id)`, as a position: the first product with that id. */
  function FindProduct(products: seq<Product>, id: string): (r: Option<nat>)
    ensures r.Some? ==> r.value < |products| && products[r.value].id == id
    ensures r.Some? ==> forall j :: 0 <= j < r.value ==> products[j].id != id
    ensures r.None? <==> forall j :: 0 <= j < |products| ==> products[j].id != id
  {
    if products == [] then None
    else if products[0].id == id then Some(0)
    else match FindProduct(products[1..], id)
      case None => None
      case Some(i) => Some(i + 1)
  }

  /** The invoice number `'INV-' + Date.now()` for a creation instant of `millis` ms. */
  function InvoiceNumber(millis: nat): string {
    "INV-" + Decimal(millis)
  }

  /** Orders created at different milliseconds get different invoice numbers. */
  lemma InvoiceNumberInjective(a: nat, b: nat)
    requires InvoiceNumber(a) == InvoiceNumber(b)
    ensures a == b
  {
    assert Decimal(a) == InvoiceNumber(a)[4..];
    assert Decimal(b) == InvoiceNumber(b)[4..];
    DecimalInjective(a, b);
  }

  /** The stock update `.update({quantity_available: v}).eq('id', id)`: every product with
      that id gets stock `v`. */
  function SetStock(products: seq<Product>, id: string, v: int): seq<Product> {
    seq(|products|, i requires 0 <= i < |products| =>
      if products[i].id == id then products[i].(quantityAvailable := v) else products[i])
  }

  /** Creating an order from the form at the instant `millis` (in month `now`); the store
      assigns the fresh id `newId`. An error means nothing was written. */
  function CreateOrder(s: Store, form: OrderForm, newId: string, millis: nat, now: YearMonth): (r: Result<Store, CreateError>)
    ensures form.productId == "" || form.buyerId == "" || form.quantity.None? ==> r == Err(MissingField)
    ensures r.Err? <==>
      form.productId == "" || form.buyerId == "" || form.quantity.None? || FindProduct(s.products, form.productId).None?
    ensures form.productId != "" && form.buyerId != "" && form.quantity.Some? &&
            FindProduct(s.products, form.productId).None?
            ==> r == Err(UnknownProduct)
    ensures r.Ok? ==> |r.value.orders| == |s.orders| + 1 && r.value.orders[1..] == s.orders
    ensures r.Ok? ==>
      var k := FindProduct(s.products, form.productId).value;
      var q := form.quantity.value;
      var o := r.value.orders[0];
      && o.id == newId && o.buyerId == form.buyerId && o.productId == form.productId && o.quantity == q
      && o.totalAmount == q * s.products[k].pricePerKg
      && o.amountPaid == Some(0)
      && o.invoiceNumber == InvoiceNumber(millis) && o.createdAt == now
      && |r.value.products| == |s.products|
      && r.value.products[k].quantityAvailable == s.products[k].quantityAvailable - q
      && (forall i :: 0 <= i < |s.products| ==>
            r.value.products[i] == if s.products[i].id == form.productId
                                   then s.products[i].(quantityAvailable := s.products[k].quantityAvailable - q)
                                   else s.products[i])
  {
    if form.productId == "" || form.buyerId == "" || form.quantity.None? then Err(MissingField)
    else match FindProduct(s.products, form.productId)
      case None => Err(UnknownProduct)
      case Some(k) =>
        var product := s.products[k];
        var q := form.quantity.value;
        var order := Order(newId, form.buyerId, form.productId, q, q * product.pricePerKg, Some(0),
                           InvoiceNumber(millis), now);
        Ok(Store(SetStock(s.products, form.productId, product.quantityAvailable - q), [order] + s.orders))
  }

  /** With unique product ids the stock update touches the chosen product alone. */
  lemma SetStockUnique(products: seq<Product>, k: nat, v: int)
    requires UniqueProductIds(products) && k < |products|
    ensures SetStock(products, products[k].id, v) == products[k := products[k].(quantityAvailable := v)]
  {
  }

  function Stock(p: Product): int { p.quantityAvailable }
  function Kilograms(o: Order): int { o.quantity }
  function Sales(o: Order): int { o.totalAmount }

  /** Creating an order moves its quantity from stock to the order book: kilograms in stock plus
      kilograms ordered stay the same (with unique product ids; the quantity is not checked, so
      stock may go negative). */
  lemma CreateOrderConservesKilograms(s: Store, form: OrderForm, newId: string, millis: nat, now: YearMonth)
    requires UniqueProductIds(s.products)
    requires CreateOrder(s, form, newId, millis, now).Ok?
    ensures var t := CreateOrder(s, form, newId, millis, now).value;
      && SumOf(Stock, t.products) == SumOf(Stock, s.products) - form.quantity.value
      && SumOf(Stock, t.products) + SumOf(Kilograms, t.orders) == SumOf(Stock, s.products) + SumOf(Kilograms, s.orders)
  {
    var t := CreateOrder(s, form, newId, millis, now).value;
    var k := FindProduct(s.products, form.productId).value;
    var q := form.quantity.value;
    SetStockUnique(s.products, k, s.products[k].quantityAvailable - q);
    SumOfUpdate(Stock, s.products, k, s.products[k].(quantityAvailable := s.products[k].quantityAvailable - q));
    assert t.orders == [t.orders[0]] + s.orders;
    SumOfConcat(Kilograms, [t.orders[0]], s.orders);
  }

  /** A new order starts unpaid: nothing paid, the whole total due. */
  lemma NewOrderIsUnpaid(s: Store, form: OrderForm, newId: string, millis: nat, now: YearMonth)
    requires CreateOrder(s, form, newId, millis, now).Ok?
    ensures var o := CreateOrder(s, form, newId, millis, now).value.orders[0];
      HasStatus(o, Unpaid) && Due(o) == o.totalAmount && (o.totalAmount > 0 ==> !HasStatus(o, Paid))
  {
  }

  /** The "Add Payment" and "Copy Payment Link" buttons are shown while something is due. */
  predicate PaymentOffered(o: Order) {
    Due(o) > 0
  }

  /** Why a payment was not recorded: the button is not shown for a settled order, or the
      amount prompt was cancelled or left empty. */
  datatype PaymentError = NotOffered | Cancelled

  /** Recording `payment` against the order card `shown`: the new paid amount is the card's
      `amount_paid || 0` plus the payment, written to every order with the card's id. */
  function AddPayment(orders: seq<Order>, shown: Order, payment: Option<int>): (r: Result<seq<Order>, PaymentError>)
    ensures !PaymentOffered(shown) ==> r == Err(NotOffered)
    ensures PaymentOffered(shown) && payment.None? ==> r == Err(Cancelled)
    ensures r.Err? <==> !PaymentOffered(shown) || payment.None?
    ensures r.Ok? ==> |r.value| == |orders|
    ensures r.Ok? ==> forall i :: 0 <= i < |orders| && orders[i].id == shown.id ==>
      r.value[i].amountPaid == Some(PaidOrZero(shown) + payment.value)
    ensures r.Ok? ==> forall i :: 0 <= i < |orders| ==>
      r.value[i].(amountPaid := orders[i].amountPaid) == orders[i]
    ensures r.Ok? ==> forall i :: 0 <= i < |orders| && orders[i].id != shown.id ==> r.value[i] == orders[i]
  {
    if !PaymentOffered(shown) then Err(NotOffered)
    else if payment.None? then Err(Cancelled)
    else
      var paid := PaidOrZero(shown) + payment.value;
      Ok(seq(|orders|, i requires 0 <= i < |orders| =>
        if orders[i].id == shown.id then orders[i].(amountPaid := Some(paid)) else orders[i]))
  }

  /** Paying against an up-to-date card adds the payment to what was paid and takes it off the
      balance; the ledger's collected sum grows by exactly the payment, while its sales sum and
      its ordered kilograms are unchanged. Nothing caps the payment. */
  lemma PaymentAccumulates(orders: seq<Order>, k: nat, payment: int)
    requires UniqueOrderIds(orders) && k < |orders| && PaymentOffered(orders[k])
    ensures AddPayment(orders, orders[k], Some(payment)).Ok?
    ensures var after := AddPayment(orders, orders[k], Some(payment)).value;
      && PaidOrZero(after[k]) == PaidOrZero(orders[k]) + payment
      && Due(after[k]) == Due(orders[k]) - payment
      && SumOf(PaidOrZero, after) == SumOf(PaidOrZero, orders) + payment
      && SumOf(Sales, after) == SumOf(Sales, orders)
      && SumOf(Kilograms, after) == SumOf(Kilograms, orders)
  {
    var o := orders[k];
    var after := AddPayment(orders, o, Some(payment)).value;
    var o' := o.(amountPaid := Some(PaidOrZero(o) + payment));
    forall i | 0 <= i < |orders|
      ensures after[i] == orders[k := o'][i]
    {
      if i != k {
        assert orders[i].id != o.id;
      }
    }
    assert after == orders[k := o'];
    SumOfUpdate(PaidOrZero, orders, k, o');
    SumOfUpdate(Sales, orders, k, o');
    SumOfUpdate(Kilograms, orders, k, o');
  }

  /** What the public payment page shows: a UPI link for the amount due, or a completion notice. */
  datatype PaymentView = PayPrompt(amountDue: int) | PaymentCompleted

  function PaymentPage(o: Order): (v: PaymentView)
    ensures v.PayPrompt? <==> PaymentOffered(o)
    ensures v.PayPrompt? ==> v.amountDue == Due(o)
  {
    if Due(o) > 0 then PayPrompt(Due(o)) else PaymentCompleted
  }

  /** The payment page reports completion exactly for the orders the dashboard lists as paid. */
  lemma PaymentPageAgreesWithStatus(o: Order)
    ensures PaymentPage(o) == PaymentCompleted <==> HasStatus(o, Paid)
    ensures PaymentPage(o).PayPrompt? ==> PaymentPage(o).amountDue > 0
  {
  }

  /** Paying the full balance shown settles the order: it is listed as paid, no further payment
      is offered, and the payment page reports completion. */
  lemma FullPaymentSettles(orders: seq<Order>, k: nat)
    requires UniqueOrderIds(orders) && k < |orders| && PaymentOffered(orders[k])
    ensures var after := AddPayment(orders, orders[k], Some(Due(orders[k]))).value;
      && Due(after[k]) == 0
      && HasStatus(after[k], Paid)
      && !PaymentOffered(after[k])
      && PaymentPage(after[k]) == PaymentCompleted
  {
    PaymentAccumulates(orders, k, Due(orders[k]));
  }
}
