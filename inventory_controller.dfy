/** The administrator's inventory handlers: editing and deleting products,
    moving an order through its statuses (releasing stock on
    cancellation), and recording import orders that add stock. */
module InventoryController {
  import opened Common
  import opened Text
  import opened ProductModel
  import opened OrderModel
  import opened Stock
  import opened Store
  import UserModel
  import CustomerController

  /** The fields an update request may carry; a field left out of the body
      is `None`. */
  datatype ProductPatch = ProductPatch(
    name: Option<string>,
    description: Option<string>,
    price: Option<int>,
    stock: Option<int>,
    image: Option<string>)

  /** The assignments of `updateProduct`: name, description, price and image
      keep their old value when the given one is falsy, the stock is
      replaced whenever one is given, and the name goes through the
      trimming setter either way. */
  function ApplyPatch(p: Product, patch: ProductPatch): (q: Product)
    ensures q.category == p.category && q.isActive == p.isActive
    ensures IsTrimmed(q.name)
  {
    p.(name := Trim(if TruthyText(patch.name) then patch.name.value else p.name),
       description := if TruthyText(patch.description) then patch.description.value else p.description,
       price := if TruthyNumber(patch.price) then patch.price.value else p.price,
       stock := if patch.stock.Some? then patch.stock.value else p.stock,
       image := if TruthyText(patch.image) then patch.image.value else p.image)
  }

  /** Sending the same update twice leaves the product as the first one
      did. */
  lemma PatchIdempotent(p: Product, patch: ProductPatch)
    ensures ApplyPatch(ApplyPatch(p, patch), patch) == ApplyPatch(p, patch)
  {
    TrimIdempotent(if TruthyText(patch.name) then patch.name.value else p.name);
  }

  /** An update with no fields leaves a stored product as it was. */
  lemma EmptyPatchKeepsProduct(p: Product)
    requires ValidProduct(p)
    ensures ApplyPatch(p, ProductPatch(None, None, None, None, None)) == p
  {
    TrimmedIffFixed(p.name);
  }

  /** Falsy values keep the old name, description, price and image, but a
      stock of 0 is written: a price of 0 cannot be set this way while a
      stock of 0 can. */
  lemma FalsyValuesKeepAllButStock(p: Product)
    requires ValidProduct(p)
    ensures ApplyPatch(p, ProductPatch(Some(""), Some(""), Some(0), Some(0), Some(""))) == p.(stock := 0)
  {
    TrimmedIffFixed(p.name);
  }

  /** On a stored product, the save after an update fails exactly when a
      given name trims to nothing, a given non-zero price is negative or a
      given stock is negative. */
  lemma PatchSaveSucceedsIff(p: Product, patch: ProductPatch)
    requires ValidProduct(p)
    ensures SaveProduct(ApplyPatch(p, patch)).Ok? <==>
      && (TruthyText(patch.name) ==> Trim(patch.name.value) != "")
      && (TruthyNumber(patch.price) ==> patch.price.value >= 0)
      && (patch.stock.Some? ==> patch.stock.value >= 0)
  {
    TrimmedIffFixed(p.name);
    var q := ApplyPatch(p, patch);
    assert IsTrimmed(q.name) by {
      TrimIdempotent(if TruthyText(patch.name) then patch.name.value else p.name);
      TrimmedIffFixed(q.name);
    }
  }

  /** `updateProduct`: 404 for a missing product; otherwise the patched
      product is saved if the schema accepts it, and nothing changes if
      not. */
  method UpdateProduct(db: Db, id: Id, patch: ProductPatch) returns (r: Result<Product>)
    requires db.Valid()
    modifies db`products
    ensures db.Valid()
    ensures id !in old(db.products) ==> r == Err(NotFound) && unchanged(db)
    ensures id in old(db.products) ==>
      && r == SaveProduct(ApplyPatch(old(db.products)[id], patch))
      && (r.Err? ==> unchanged(db))
      && (r.Ok? ==> db.products == old(db.products)[id := r.value])
  {
    if id !in db.products {
      return Err(NotFound);
    }
    r := SaveProduct(ApplyPatch(db.products[id], patch));
    if r.Ok? {
      PutProductKeepsProductsValid(db.products, id, r.value);
      db.products := db.products[id := r.value];
    }
  }

  /** `deleteProduct`: 404 for a missing product, otherwise it is removed
      and nothing else changes. */
  method DeleteProduct(db: Db, id: Id) returns (r: Result<()>)
    requires db.Valid()
    modifies db`products
    ensures db.Valid()
    ensures id !in old(db.products) ==> r == Err(NotFound) && unchanged(db)
    ensures id in old(db.products) ==> r == Ok(()) && db.products == old(db.products) - {id}
  {
    if id !in db.products {
      return Err(NotFound);
    }
    db.products := db.products - {id};
    r := Ok(());
  }

  /** The statuses an administrator may move an order to from each
      status. */
  function OrderNext(s: OrderStatus): (next: set<OrderStatus>)
    ensures Pending !in next
    ensures Confirmed in next ==> s == Pending
    ensures Shipped in next ==> s == Confirmed
    ensures Delivered in next ==> s == Shipped
  {
    match s
    case Pending => {Confirmed, OrderStatus.Cancelled}
    case Confirmed => {Shipped, OrderStatus.Cancelled}
    case Shipped => {Delivered, OrderStatus.Cancelled}
    case Delivered => {}
    case Cancelled => {}
  }

  /** How far along an order is. */
  function OrderStage(s: OrderStatus): int {
    match s
    case Pending => 0
    case Confirmed => 1
    case Shipped => 2
    case Delivered => 3
    case Cancelled => 3
  }

  /** The table only moves forward: no status leads to itself, exactly
      delivered and cancelled orders accept nothing, and every other status
      may be cancelled. */
  lemma OrderTableMovesForward(s: OrderStatus)
    ensures s !in OrderNext(s)
    ensures forall t :: t in OrderNext(s) ==> OrderStage(s) < OrderStage(t)
    ensures OrderNext(s) == {} <==> s == Delivered || s == OrderStatus.Cancelled
    ensures OrderStatus.Cancelled in OrderNext(s) <==> s != Delivered && s != OrderStatus.Cancelled
  {
  }

  /** Any sequence of allowed changes has at most four statuses and never
      repeats one, so it cancels an order, and releases its stock, at most
      once. */
  lemma OrderRunsAreShort(run: seq<OrderStatus>)
    requires IsRun(run, OrderNext)
    ensures |run| <= 4
    ensures forall i, j :: 0 <= i < j < |run| ==> run[i] != run[j]
  {
    forall s, t | t in OrderNext(s) ensures OrderStage(s) < OrderStage(t) {
      OrderTableMovesForward(s);
    }
    RunRanksRise(run, OrderNext, OrderStage);
    if |run| > 1 {
      assert OrderStage(run[0]) + (|run| - 1) <= OrderStage(run[|run| - 1]);
    }
  }

  /** The guards of `updateOrderStatus`: 404 for a missing order, then 400
      unless the table allows the requested status (a missing or unknown
      one is never allowed). */
  function OrderStatusRefusal(orders: map<Id, Order>, id: Id, status: Choice<OrderStatus>): (e: Option<Error>)
    ensures e.None? <==> id in orders && status.Chosen? && status.value in OrderNext(orders[id].status)
    ensures id !in orders ==> e == Some(NotFound)
    ensures id in orders && e.Some? ==> e == Some(BadRequest(TransitionRefused))
  {
    if id !in orders then Some(NotFound)
    else if !status.Chosen? || status.value !in OrderNext(orders[id].status) then Some(BadRequest(TransitionRefused))
    else None
  }

  /** The order a successful `updateOrderStatus` stores: the new status, and
      on cancellation the payment status the administrator's path writes. */
  function AdminUpdate(o: Order, status: OrderStatus): (u: Order)
    ensures u.items == o.items && u.customer == o.customer && u.totalAmount == o.totalAmount
    ensures u.shippingAddress == o.shippingAddress && u.paymentMethod == o.paymentMethod
    ensures u.status == status
    ensures status != OrderStatus.Cancelled ==> u == o.(status := status)
    ensures status == OrderStatus.Cancelled ==>
      u.paymentStatus == (if o.paymentMethod == Banking then Refunded else PayCancelled)
  {
    if status == OrderStatus.Cancelled
    then o.(status := status, paymentStatus := AdminCancelPayment(o.paymentMethod))
    else o.(status := status)
  }

  /** `updateOrderStatus`: after the guards, a cancellation first adds every
      line's quantity back to its product's stock; the order is then saved
      with its new status.  Any other change touches no stock. */
  method UpdateOrderStatus(db: Db, id: Id, status: Choice<OrderStatus>) returns (r: Result<Order>)
    requires db.Valid()
    modifies db`products, db`orders
    ensures db.Valid()
    ensures OrderStatusRefusal(old(db.orders), id, status).Some? ==>
      r == Err(OrderStatusRefusal(old(db.orders), id, status).value) && unchanged(db)
    ensures OrderStatusRefusal(old(db.orders), id, status).None? ==>
      && r == Ok(AdminUpdate(old(db.orders)[id], status.value))
      && db.orders == old(db.orders)[id := r.value]
      && db.products == (if status.value == OrderStatus.Cancelled
                         then Restock(old(db.products), Requested(old(db.orders)[id].items))
                         else old(db.products))
  {
    var refusal := OrderStatusRefusal(db.orders, id, status);
    if refusal.Some? {
      return Err(refusal.value);
    }
    var order := db.orders[id];
    assert ValidOrder(order);
    if status.value == OrderStatus.Cancelled {
      AddStock(db, Requested(order.items));
      AcceptedEnumStoresCancellation(order);
    }
    var saved := SaveOrder(AdminUpdate(order, status.value));
    assert saved == Ok(AdminUpdate(order, status.value));
    PutOrderKeepsOrdersValid(db.orders, id, saved.value);
    db.orders := db.orders[id := saved.value];
    r := saved;
  }

  /** Once the administrator has cancelled an order, every further status
      change is refused, so its stock is not released again. */
  lemma CancelledOrderAcceptsNothing(orders: map<Id, Order>, id: Id, status: Choice<OrderStatus>)
    requires id in orders
    ensures OrderStatusRefusal(orders[id := AdminUpdate(orders[id], OrderStatus.Cancelled)], id, status)
            == Some(BadRequest(TransitionRefused))
  {
  }

  /** The customer may cancel their own order exactly when the
      administrator's table lets it move to cancelled: pending, confirmed
      and shipped orders. */
  lemma CancellableAlike(orders: map<Id, Order>, caller: UserModel.Caller, id: Id)
    requires id in orders && orders[id].customer == caller.id
    ensures CustomerController.CancelOrderRefusal(orders, caller, id).None?
            <==> OrderStatus.Cancelled in OrderNext(orders[id].status)
    ensures OrderStatus.Cancelled in OrderNext(orders[id].status)
            <==> orders[id].status in {Pending, Confirmed, Shipped}
  {
  }

  /** What one administrator cancellation does as written: the stock is
      released, then the save meets the declared payment enum. */
  datatype CancelOutcome = CancelOutcome(products: Products, order: Order, response: Result<Order>)

  /** The cancellation path of `updateOrderStatus` against the declared
      enum, which refuses the payment status it writes: the release loop
      has already run when the save fails, and the stored order keeps its
      old status. */
  function CancelAsWritten(products: Products, o: Order): (c: CancelOutcome)
    ensures c.products == Restock(products, Requested(o.items))
  {
    var cancelled := o.(status := OrderStatus.Cancelled, paymentStatus := AdminCancelPayment(o.paymentMethod));
    var saved := if ValidPaymentStatus(cancelled.paymentStatus) then SaveOrder(cancelled) else Err(SchemaViolation);
    CancelOutcome(Restock(products, Requested(o.items)), if saved.Ok? then saved.value else o, saved)
  }

  /** As written, the save fails and the order stays cancellable, so a
      second request releases the same stock again: every product ends with
      twice the order's quantity added. */
  lemma CancelAsWrittenReleasesTwice(products: Products, o: Order)
    requires OrderStatus.Cancelled in OrderNext(o.status)
    ensures var first := CancelAsWritten(products, o);
            && first.response == Err(SchemaViolation) && first.order == o
            && OrderStatus.Cancelled in OrderNext(first.order.status)
    ensures var second := CancelAsWritten(CancelAsWritten(products, o).products, o);
            forall pid :: pid in products ==>
              second.products[pid].stock == products[pid].stock + 2 * QuantityOf(Requested(o.items), pid)
  {
    DeclaredEnumRefusesCancellation(o);
    var once := Restock(products, Requested(o.items));
    RestockAccounting(products, Requested(o.items));
    RestockAccounting(once, Requested(o.items));
  }

  /** `addImportOrder`, with quantities below 1 refused: the import order is
      stored only with a supplier and positive quantities, and then each
      listed quantity is added to its product's stock. */
  method AddImportOrder(db: Db, supplier: Option<Id>, items: seq<Item>) returns (r: Result<Id>)
    requires db.Valid()
    modifies db`importOrders, db`products, db`nextId
    ensures db.Valid()
    ensures (supplier.None? || exists i :: 0 <= i < |items| && items[i].quantity < 1) ==>
      r == Err(SchemaViolation) && unchanged(db)
    ensures (supplier.Some? && forall i :: 0 <= i < |items| ==> items[i].quantity >= 1) ==>
      && r == Ok(old(db.nextId))
      && db.importOrders == old(db.importOrders)[old(db.nextId) := ImportOrder(supplier.value, items)]
      && db.nextId == old(db.nextId) + 1
      && db.products == Restock(old(db.products), items)
  {
    if supplier.None? || exists i :: 0 <= i < |items| && items[i].quantity < 1 {
      return Err(SchemaViolation);
    }
    db.importOrders := db.importOrders[db.nextId := ImportOrder(supplier.value, items)];
    r := Ok(db.nextId);
    db.nextId := db.nextId + 1;
    AddStock(db, items);
  }

  /** An accepted import adds exactly the listed total to each product and
      lowers no stock. */
  lemma ImportOnlyRaisesStock(products: Products, items: seq<Item>)
    requires forall i :: 0 <= i < |items| ==> items[i].quantity >= 1
    requires forall pid :: pid in products ==> ValidProduct(products[pid])
    ensures forall pid :: pid in products ==>
      && Restock(products, items)[pid].stock == products[pid].stock + QuantityOf(items, pid)
      && Restock(products, items)[pid].stock >= products[pid].stock
      && ValidProduct(Restock(products, items)[pid])
  {
    RestockAccounting(products, items);
    RestockKeepsProductsValid(products, items);
  }
}
