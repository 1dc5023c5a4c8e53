/** The Order schema: line items, the status and payment enums, and the
    pre-save hook that recomputes the total from the items. */
module OrderModel {
  import opened Common

  /** A requested `{ product, quantity }` pair, as an order request or an
      import order lists it. */
  datatype Item = Item(product: Id, quantity: int)

  /** A saved order line: the price is the product's price when ordered. */
  datatype LineItem = LineItem(product: Id, quantity: int, price: int)

  datatype OrderStatus = Pending | Confirmed | Shipped | Delivered | Cancelled

  datatype PaymentMethod = Cod | Banking

  /** Every payment status the handlers write.  Only the first three are in
      the schema's enum (see ValidPaymentStatus). */
  datatype PaymentStatus = PayPending | Paid | PayFailed | Refunded | PayCancelled

  datatype Address = Address(address: Option<string>, city: Option<string>, phone: Option<string>)

  datatype Order = Order(
    customer: Id,
    items: seq<LineItem>,
    totalAmount: int,
    status: OrderStatus,
    shippingAddress: Address,
    paymentMethod: PaymentMethod,
    paymentStatus: PaymentStatus)

  /** The amount of an order: the pre-save hook's left fold of
      price * quantity over the items, starting from 0. */
  function Total(items: seq<LineItem>): (t: int)
    ensures (forall i :: 0 <= i < |items| ==> items[i].price >= 0 && items[i].quantity >= 0) ==> t >= 0
  {
    if items == [] then 0
    else Total(items[..|items| - 1]) + items[|items| - 1].price * items[|items| - 1].quantity
  }

  /** Appending a line adds its price times its quantity to the total. */
  lemma TotalSnoc(items: seq<LineItem>, line: LineItem)
    ensures Total(items + [line]) == Total(items) + line.price * line.quantity
  {
    assert (items + [line])[..|items|] == items;
  }

  /** Totals add up over concatenated item lists. */
  lemma {:induction false} TotalAppend(a: seq<LineItem>, b: seq<LineItem>)
    ensures Total(a + b) == Total(a) + Total(b)
  {
    if b != [] {
      assert (a + b)[..|a + b| - 1] == a + b[..|b| - 1];
      TotalAppend(a, b[..|b| - 1]);
    } else {
      assert a + b == a;
    }
  }

  /** With prices not below 0 and quantities of at least 1, an order's total
      is not below 0 and at least the price of each of its lines. */
  lemma {:induction false} TotalBounds(items: seq<LineItem>)
    requires forall i :: 0 <= i < |items| ==> items[i].price >= 0 && items[i].quantity >= 1
    ensures Total(items) >= 0
    ensures forall i :: 0 <= i < |items| ==> Total(items) >= items[i].price
  {
    if items != [] {
      var init, last := items[..|items| - 1], items[|items| - 1];
      TotalBounds(init);
      assert last.price * last.quantity >= last.price;
      forall i | 0 <= i < |items| ensures Total(items) >= items[i].price {
        if i < |init| {
          assert items[i] == init[i];
        }
      }
    }
  }

  /** The payment statuses the schema's enum declares. */
  predicate ValidPaymentStatus(s: PaymentStatus) {
    s == PayPending || s == Paid || s == PayFailed
  }

  /** The payment statuses this model's save accepts: the declared ones and
      the two the cancellation handlers write. */
  predicate AcceptedPaymentStatus(s: PaymentStatus) {
    ValidPaymentStatus(s) || s == Refunded || s == PayCancelled
  }

  /** What every saved order satisfies: each quantity is at least 1, the
      total is recomputed from the items, and the payment status is one the
      save accepts. */
  predicate ValidOrder(o: Order) {
    && (forall i :: 0 <= i < |o.items| ==> o.items[i].quantity >= 1)
    && o.totalAmount == Total(o.items)
    && AcceptedPaymentStatus(o.paymentStatus)
  }

  /** Saving an order: the pre-save hook overwrites the total, then the
      schema's constraints are checked. */
  function SaveOrder(o: Order): (r: Result<Order>)
    ensures r.Ok? <==> (forall i :: 0 <= i < |o.items| ==> o.items[i].quantity >= 1)
                       && AcceptedPaymentStatus(o.paymentStatus)
    ensures r.Ok? ==> ValidOrder(r.value) && r.value == o.(totalAmount := r.value.totalAmount)
    ensures r.Err? ==> r.error == SchemaViolation
  {
    var saved := o.(totalAmount := Total(o.items));
    if ValidOrder(saved) then Ok(saved) else Err(SchemaViolation)
  }

  /** The `Order.create` call of the checkout handler: status pending,
      payment status pending whatever the method, a left-out method
      defaulting to cash on delivery, and the save of SaveOrder. */
  function NewOrder(customer: Id, lines: seq<LineItem>, shippingAddress: Address,
                    paymentMethod: Choice<PaymentMethod>): (r: Result<Order>)
    ensures r.Ok? ==> ValidOrder(r.value) && r.value.shippingAddress == shippingAddress
    ensures r.Err? ==> r.error == SchemaViolation
  {
    if paymentMethod.Unknown? then Err(SchemaViolation)
    else
      var pm := if paymentMethod.Chosen? then paymentMethod.value else Cod;
      SaveOrder(Order(customer, lines, Total(lines), Pending, shippingAddress, pm, PayPending))
  }

  /** A new order is pending and unpaid whatever the payment method, holds
      exactly the given lines and their total; it is refused exactly when the
      method is not one of the enum's or some quantity is below 1. */
  lemma NewOrderIsPending(customer: Id, lines: seq<LineItem>, shippingAddress: Address,
                          paymentMethod: Choice<PaymentMethod>)
    ensures var r := NewOrder(customer, lines, shippingAddress, paymentMethod);
            && (r.Ok? <==> !paymentMethod.Unknown?
                           && forall i :: 0 <= i < |lines| ==> lines[i].quantity >= 1)
            && (r.Ok? ==> && r.value.status == Pending && r.value.paymentStatus == PayPending
                          && r.value.items == lines && r.value.totalAmount == Total(lines)
                          && r.value.customer == customer
                          && r.value.paymentMethod == (if paymentMethod.Chosen? then paymentMethod.value else Cod))
            && (r.Err? ==> r.error == SchemaViolation)
  {
  }

  /** The payment status the customer's cancellation writes: refunded only
      for a paid bank transfer, cancelled otherwise. */
  function CustomerCancelPayment(pm: PaymentMethod, status: PaymentStatus): (r: PaymentStatus)
    ensures r == Refunded <==> pm == Banking && status == Paid
    ensures r == Refunded || r == PayCancelled
  {
    if pm == Banking && status == Paid then Refunded else PayCancelled
  }

  /** The payment status the administrator's cancellation writes: refunded
      for every bank transfer, paid or not. */
  function AdminCancelPayment(pm: PaymentMethod): (r: PaymentStatus)
    ensures r == Refunded <==> pm == Banking
    ensures r == Refunded || r == PayCancelled
  {
    if pm == Banking then Refunded else PayCancelled
  }

  /** The two cancellation paths disagree exactly on bank transfers that
      were not paid. */
  lemma CancelPathsDisagree(pm: PaymentMethod, status: PaymentStatus)
    ensures CustomerCancelPayment(pm, status) != AdminCancelPayment(pm)
        <==> pm == Banking && status != Paid
  {
  }

  /** As declared, the schema's enum refuses every payment status either
      cancellation path writes, so saving a cancelled order fails. */
  lemma DeclaredEnumRefusesCancellation(o: Order)
    ensures !ValidPaymentStatus(CustomerCancelPayment(o.paymentMethod, o.paymentStatus))
    ensures !ValidPaymentStatus(AdminCancelPayment(o.paymentMethod))
  {
  }

  /** With the two written values accepted, a saved order stays saveable
      when either cancellation path cancels it. */
  lemma AcceptedEnumStoresCancellation(o: Order)
    requires ValidOrder(o)
    ensures SaveOrder(o.(status := Cancelled,
                         paymentStatus := CustomerCancelPayment(o.paymentMethod, o.paymentStatus)))
            == Ok(o.(status := Cancelled,
                     paymentStatus := CustomerCancelPayment(o.paymentMethod, o.paymentStatus)))
    ensures SaveOrder(o.(status := Cancelled, paymentStatus := AdminCancelPayment(o.paymentMethod)))
            == Ok(o.(status := Cancelled, paymentStatus := AdminCancelPayment(o.paymentMethod)))
  {
  }
}
