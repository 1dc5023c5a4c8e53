/** The database the handlers read and write: one collection per document
    kind, keyed by id.  Identifiers of new documents come from one counter,
    so a new document never collides with a stored one. */
module Store {
  import opened Common
  import opened ProductModel
  import opened OrderModel
  import opened AppointmentModel
  import opened ShiftModel
  import opened Stock

  /** Every id in `ids` was handed out before the counter reached `next`. */
  ghost predicate IdsBelow(ids: set<Id>, next: nat) {
    forall id :: id in ids ==> id < next
  }

  ghost predicate ProductsValid(products: map<Id, Product>) {
    forall id :: id in products ==> ValidProduct(products[id])
  }

  ghost predicate OrdersValid(orders: map<Id, Order>) {
    forall id :: id in orders ==> ValidOrder(orders[id])
  }

  ghost predicate AppointmentsValid(appointments: map<Id, Appointment>) {
    forall id :: id in appointments ==> ValidAppointment(appointments[id])
  }

  ghost predicate ShiftsValid(shifts: map<Id, Shift>) {
    && (forall id :: id in shifts ==> AttendanceInOrder(shifts[id]))
    && UniqueSlots(shifts)
  }

  /** Changing one product's stock to a value not below 0 keeps the
      collection saveable. */
  lemma WithStockKeepsProductsValid(products: map<Id, Product>, pid: Id, stock: int)
    requires ProductsValid(products) && pid in products && stock >= 0
    ensures ProductsValid(products[pid := products[pid].(stock := stock)])
  {
    var p := products[pid];
    assert ValidProduct(p.(stock := stock)) by {
      assert p.(stock := stock).name == p.name;
    }
  }

  /** Storing a saveable product keeps the collection saveable. */
  lemma PutProductKeepsProductsValid(products: map<Id, Product>, id: Id, p: Product)
    requires ProductsValid(products) && ValidProduct(p)
    ensures ProductsValid(products[id := p])
  {
  }

  /** Storing a saveable order keeps the collection saveable. */
  lemma PutOrderKeepsOrdersValid(orders: map<Id, Order>, id: Id, o: Order)
    requires OrdersValid(orders) && ValidOrder(o)
    ensures OrdersValid(orders[id := o])
  {
  }

  /** Storing a saveable appointment keeps the collection saveable. */
  lemma PutAppointmentKeepsAppointmentsValid(appointments: map<Id, Appointment>, id: Id, a: Appointment)
    requires AppointmentsValid(appointments) && ValidAppointment(a)
    ensures AppointmentsValid(appointments[id := a])
  {
  }

  /** Storing a shift under a fresh id with a free key keeps the shifts
      valid, and takes the key. */
  lemma InsertShiftKeepsShiftsValid(shifts: map<Id, Shift>, id: Id, s: Shift)
    requires ShiftsValid(shifts) && id !in shifts && !SlotTaken(shifts, Key(s)) && AttendanceInOrder(s)
    ensures ShiftsValid(shifts[id := s])
    ensures SlotTaken(shifts[id := s], Key(s))
  {
    InsertKeepsSlotsUnique(shifts, id, s);
  }

  /** Replacing a stored shift by one with the same key and attendance in
      order keeps the shifts valid. */
  lemma UpdateShiftKeepsShiftsValid(shifts: map<Id, Shift>, id: Id, s: Shift)
    requires ShiftsValid(shifts) && id in shifts && Key(s) == Key(shifts[id]) && AttendanceInOrder(s)
    ensures ShiftsValid(shifts[id := s])
  {
    UpdateKeepsSlotsUnique(shifts, id, s);
  }

  class Db {
    var products: map<Id, Product>
    var orders: map<Id, Order>
    var appointments: map<Id, Appointment>
    var shifts: map<Id, Shift>
    var importOrders: map<Id, ImportOrder>
    var nextId: nat

    /** Every stored document satisfies its schema, the shift index holds,
        and every id in use is below the counter. */
    ghost predicate Valid()
      reads this
    {
      && ProductsValid(products)
      && OrdersValid(orders)
      && AppointmentsValid(appointments)
      && ShiftsValid(shifts)
      && IdsBelow(products.Keys, nextId)
      && IdsBelow(orders.Keys, nextId)
      && IdsBelow(appointments.Keys, nextId)
      && IdsBelow(shifts.Keys, nextId)
      && IdsBelow(importOrders.Keys, nextId)
    }

    /** An empty database. */
    constructor ()
      ensures Valid()
      ensures products == map[] && orders == map[] && appointments == map[]
      ensures shifts == map[] && importOrders == map[] && nextId == 0
    {
      products := map[];
      orders := map[];
      appointments := map[];
      shifts := map[];
      importOrders := map[];
      nextId := 0;
    }
  }

  /** `Order.create` once the order passed its save: it is stored under a
      fresh id. */
  method InsertOrder(db: Db, o: Order) returns (id: Id)
    requires db.Valid() && ValidOrder(o)
    modifies db`orders, db`nextId
    ensures db.Valid()
    ensures id == old(db.nextId) && id !in old(db.orders)
    ensures db.orders == old(db.orders)[id := o] && db.nextId == old(db.nextId) + 1
  {
    PutOrderKeepsOrdersValid(db.orders, db.nextId, o);
    db.orders := db.orders[db.nextId := o];
    id := db.nextId;
    db.nextId := db.nextId + 1;
  }

  /** The checkout loop of `createOrder`: for each item in turn, read the
      product, refuse a missing one or one with too little stock, record a
      line at the price read, add to the running total, and save the
      decremented stock.  It stops at the first refusal, keeping the
      decrements saved before it. */
  method Checkout(db: Db, items: seq<Item>)
    returns (lines: seq<LineItem>, totalAmount: int, failure: Option<Error>)
    requires ProductsValid(db.products)
    modifies db`products
    ensures Reserve(old(db.products), items) == Reservation(db.products, lines, failure)
    ensures totalAmount == Total(lines)
    ensures ProductsValid(db.products) && db.products.Keys == old(db.products).Keys
  {
    ghost var initial := db.products;
    lines := [];
    totalAmount := 0;
    var i := 0;
    while i < |items|
      invariant 0 <= i <= |items|
      invariant Reserve(initial, items[..i]) == Reservation(db.products, lines, None)
      invariant totalAmount == Total(lines)
      invariant ProductsValid(db.products)
    {
      var item := items[i];
      if item.product !in db.products {
        ReserveHalts(initial, items, i, db.products, lines);
        return lines, totalAmount, Some(NotFound);
      }
      var product := db.products[item.product];
      if product.stock < item.quantity {
        ReserveHalts(initial, items, i, db.products, lines);
        return lines, totalAmount, Some(BadRequest(OutOfStock));
      }
      ReserveAdvance(initial, items, i, db.products, lines);
      WithStockKeepsProductsValid(db.products, item.product, product.stock - item.quantity);
      TotalSnoc(lines, LineItem(item.product, item.quantity, product.price));
      lines := lines + [LineItem(item.product, item.quantity, product.price)];
      totalAmount := totalAmount + product.price * item.quantity;
      db.products := db.products[item.product := product.(stock := product.stock - item.quantity)];
      i := i + 1;
    }
    assert items[..i] == items;
    failure := None;
  }

  /** The release and import loops: add each listed quantity to its
      product's stock, one product at a time, skipping ids with no
      product. */
  method AddStock(db: Db, items: seq<Item>)
    requires ProductsValid(db.products)
    requires forall j :: 0 <= j < |items| ==> items[j].quantity >= 0
    modifies db`products
    ensures db.products == Restock(old(db.products), items)
    ensures ProductsValid(db.products)
  {
    for k := 0 to |items|
      invariant db.products == Restock(old(db.products), items[..k])
      invariant ProductsValid(db.products)
    {
      RestockStep(old(db.products), items, k);
      var item := items[k];
      if item.product in db.products {
        var product := db.products[item.product];
        WithStockKeepsProductsValid(db.products, item.product, product.stock + item.quantity);
        db.products := db.products[item.product := product.(stock := product.stock + item.quantity)];
      }
    }
    assert items[..|items|] == items;
  }
}
