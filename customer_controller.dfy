/** The customer's request handlers: placing and cancelling orders, and
    booking, cancelling, editing and reviewing appointments.  Each handler
    answers with the stored document or with the first error its guard
    chain finds. */
module CustomerController {
  import opened Common
  import opened Time
  import opened ProductModel
  import opened OrderModel
  import opened AppointmentModel
  import opened UserModel
  import opened Stock
  import opened Store

  /** `createOrder`: refuses an empty item list, then a missing shipping
      address, before touching anything; then runs the checkout loop, which
      saves each product's decrement as it goes and stops at the first item
      that is missing or short; then creates the order.  The order's save
      can still refuse it, after the decrements, in which case they stay. */
  method CreateOrder(db: Db, caller: Caller, items: seq<Item>, shippingAddress: Option<Address>,
                     paymentMethod: Choice<PaymentMethod>) returns (r: Result<Id>)
    requires db.Valid()
    modifies db`products, db`orders, db`nextId
    ensures db.Valid()
    ensures items == [] ==> r == Err(BadRequest(NoItems)) && unchanged(db)
    ensures items != [] && shippingAddress.None? ==> r == Err(BadRequest(NoShippingAddress)) && unchanged(db)
    ensures items != [] && shippingAddress.Some? ==>
      var res := Reserve(old(db.products), items);
      && db.products == res.products
      && (res.failure.Some? ==>
            r == Err(res.failure.value) && db.orders == old(db.orders) && db.nextId == old(db.nextId))
      && (res.failure.None? ==>
            var created := NewOrder(caller.id, res.lines, shippingAddress.value, paymentMethod);
            && (created.Err? ==>
                  r == Err(created.error) && db.orders == old(db.orders) && db.nextId == old(db.nextId))
            && (created.Ok? ==>
                  && r == Ok(old(db.nextId))
                  && db.orders == old(db.orders)[old(db.nextId) := created.value]
                  && db.nextId == old(db.nextId) + 1))
  {
    if items == [] {
      return Err(BadRequest(NoItems));
    }
    if shippingAddress.None? {
      return Err(BadRequest(NoShippingAddress));
    }
    var orderItems, totalAmount, failure := Checkout(db, items);
    if failure.Some? {
      return Err(failure.value);
    }
    var created := NewOrder(caller.id, orderItems, shippingAddress.value, paymentMethod);
    if created.Err? {
      return Err(created.error);
    }
    var id := InsertOrder(db, created.value);
    r := Ok(id);
  }

  /** The guard chain of the customer's order cancellation: unknown order,
      then someone else's order, then an order already delivered or
      cancelled. */
  function CancelOrderRefusal(orders: map<Id, Order>, caller: Caller, orderId: Id): (e: Option<Error>)
    ensures e.None? <==> orderId in orders && orders[orderId].customer == caller.id
                         && orders[orderId].status != OrderStatus.Delivered
                         && orders[orderId].status != OrderStatus.Cancelled
    ensures orderId !in orders ==> e == Some(NotFound)
    ensures orderId in orders && orders[orderId].customer != caller.id ==> e == Some(Forbidden)
    ensures orderId in orders && orders[orderId].customer == caller.id && e.Some? ==> e == Some(BadRequest(OrderClosed))
  {
    if orderId !in orders then Some(NotFound)
    else if orders[orderId].customer != caller.id then Some(Forbidden)
    else if orders[orderId].status == OrderStatus.Delivered || orders[orderId].status == OrderStatus.Cancelled
    then Some(BadRequest(OrderClosed))
    else None
  }

  /** `cancelOrder`: after its guards, marks the order cancelled with the
      customer's payment rule and saves it, then adds each line's quantity
      back to its product, skipping products that no longer exist. */
  method CancelOrder(db: Db, caller: Caller, orderId: Id) returns (r: Result<Order>)
    requires db.Valid()
    modifies db`products, db`orders
    ensures db.Valid()
    ensures CancelOrderRefusal(old(db.orders), caller, orderId).Some? ==>
      r == Err(CancelOrderRefusal(old(db.orders), caller, orderId).value) && unchanged(db)
    ensures CancelOrderRefusal(old(db.orders), caller, orderId).None? ==>
      var o := old(db.orders)[orderId];
      && r == Ok(o.(status := OrderStatus.Cancelled,
                    paymentStatus := CustomerCancelPayment(o.paymentMethod, o.paymentStatus)))
      && db.orders == old(db.orders)[orderId := r.value]
      && db.products == Restock(old(db.products), Requested(o.items))
  {
    var refusal := CancelOrderRefusal(db.orders, caller, orderId);
    if refusal.Some? {
      return Err(refusal.value);
    }
    var order := db.orders[orderId];
    assert ValidOrder(order);
    var cancelled := order.(status := OrderStatus.Cancelled,
                            paymentStatus := CustomerCancelPayment(order.paymentMethod, order.paymentStatus));
    AcceptedEnumStoresCancellation(order);
    var saved := SaveOrder(cancelled);
    PutOrderKeepsOrdersValid(db.orders, orderId, saved.value);
    db.orders := db.orders[orderId := saved.value];
    AddStock(db, Requested(order.items));
    r := Ok(saved.value);
  }

  /** `createAppointment`: refuses a date before now (now itself is
      accepted), then creates the appointment as pending.  A missing date
      passes the check (an invalid date compares false) and is refused by
      the save. */
  method CreateAppointment(db: Db, caller: Caller, now: Millis, staff: Option<Id>,
                           appointmentDate: Option<Millis>, services: seq<Service>, note: Option<string>)
    returns (r: Result<Id>)
    requires db.Valid()
    modifies db`appointments, db`nextId
    ensures db.Valid()
    ensures appointmentDate.Some? && appointmentDate.value < now ==>
      r == Err(BadRequest(PastDate)) && unchanged(db)
    ensures !(appointmentDate.Some? && appointmentDate.value < now) ==>
      var created := NewAppointment(caller.id, staff, appointmentDate, services, note);
      && (created.Err? ==> r == Err(created.error) && unchanged(db))
      && (created.Ok? ==> && r == Ok(old(db.nextId))
                          && db.appointments == old(db.appointments)[old(db.nextId) := created.value]
                          && db.nextId == old(db.nextId) + 1)
  {
    if appointmentDate.Some? && appointmentDate.value < now {
      return Err(BadRequest(PastDate));
    }
    var created := NewAppointment(caller.id, staff, appointmentDate, services, note);
    if created.Err? {
      return Err(created.error);
    }
    PutAppointmentKeepsAppointmentsValid(db.appointments, db.nextId, created.value);
    db.appointments := db.appointments[db.nextId := created.value];
    r := Ok(db.nextId);
    db.nextId := db.nextId + 1;
  }

  /** The guard chain shared by cancelling and editing an appointment:
      unknown appointment, someone else's, completed or cancelled, and
      finally less than two hours to go. */
  function ChangeRefusal(appointments: map<Id, Appointment>, caller: Caller, id: Id, now: Millis)
    : (e: Option<Error>)
    ensures e.None? <==> && id in appointments && appointments[id].customer == caller.id
                         && !Closed(appointments[id].status)
                         && !WithinCutoff(appointments[id].appointmentDate, now)
    ensures id !in appointments ==> e == Some(NotFound)
    ensures id in appointments && appointments[id].customer != caller.id ==> e == Some(Forbidden)
    ensures (id in appointments && appointments[id].customer == caller.id && Closed(appointments[id].status))
            ==> e == Some(BadRequest(AppointmentClosed))
    ensures (id in appointments && appointments[id].customer == caller.id && !Closed(appointments[id].status)
             && WithinCutoff(appointments[id].appointmentDate, now)) ==> e == Some(BadRequest(TooLate))
  {
    if id !in appointments then Some(NotFound)
    else if appointments[id].customer != caller.id then Some(Forbidden)
    else if Closed(appointments[id].status) then Some(BadRequest(AppointmentClosed))
    else if WithinCutoff(appointments[id].appointmentDate, now) then Some(BadRequest(TooLate))
    else None
  }

  /** An appointment can be changed only while at least two hours remain
      before it, so never once its time has come. */
  lemma ChangeNeedsTwoHoursNotice(appointments: map<Id, Appointment>, caller: Caller, id: Id, now: Millis)
    requires ChangeRefusal(appointments, caller, id, now).None?
    ensures appointments[id].appointmentDate >= now + 2 * HourMs
    ensures appointments[id].appointmentDate > now
  {
  }

  /** `cancelAppointment`: after the guards, only the status changes, to
      cancelled. */
  method CancelAppointment(db: Db, caller: Caller, now: Millis, id: Id) returns (r: Result<Appointment>)
    requires db.Valid()
    modifies db`appointments
    ensures db.Valid()
    ensures ChangeRefusal(old(db.appointments), caller, id, now).Some? ==>
      r == Err(ChangeRefusal(old(db.appointments), caller, id, now).value) && unchanged(db)
    ensures ChangeRefusal(old(db.appointments), caller, id, now).None? ==>
      && r == Ok(old(db.appointments)[id].(status := AppointmentStatus.Cancelled))
      && db.appointments == old(db.appointments)[id := r.value]
  {
    var refusal := ChangeRefusal(db.appointments, caller, id, now);
    if refusal.Some? {
      return Err(refusal.value);
    }
    var a := db.appointments[id];
    assert ValidAppointment(a);
    SaveKeepsStatusAndReviewChanges(a, AppointmentStatus.Cancelled, a.review);
    var saved := SaveAppointment(a.(status := AppointmentStatus.Cancelled, review := a.review));
    assert a.(status := AppointmentStatus.Cancelled, review := a.review) == a.(status := AppointmentStatus.Cancelled);
    PutAppointmentKeepsAppointmentsValid(db.appointments, id, saved.value);
    db.appointments := db.appointments[id := saved.value];
    r := Ok(saved.value);
  }

  /** The edit `updateAppointment` makes: each field given a truthy value
      is replaced (an array of services always is), the rest is kept. */
  function Edit(a: Appointment, appointmentDate: Option<Millis>, services: Option<seq<Service>>,
                note: Option<string>): (e: Appointment)
    ensures e.status == a.status && e.customer == a.customer && e.staff == a.staff && e.review == a.review
    ensures e.appointmentDate == (if appointmentDate.Some? then appointmentDate.value else a.appointmentDate)
    ensures e.services == (if services.Some? then services.value else a.services)
    ensures e.note == (if TruthyText(note) then note else a.note)
  {
    a.(appointmentDate := if appointmentDate.Some? then appointmentDate.value else a.appointmentDate,
       services := if services.Some? then services.value else a.services,
       note := if TruthyText(note) then note else a.note)
  }

  /** Applying the same edit twice changes nothing more, and an edit that
      supplies nothing changes nothing. */
  lemma EditIdempotent(a: Appointment, appointmentDate: Option<Millis>, services: Option<seq<Service>>,
                       note: Option<string>)
    ensures Edit(Edit(a, appointmentDate, services, note), appointmentDate, services, note)
            == Edit(a, appointmentDate, services, note)
    ensures Edit(a, None, None, None) == a
  {
  }

  /** `updateAppointment`: after the guards, a supplied date before now is
      refused; otherwise the edit is saved, which recomputes the total price
      and can refuse a service without a name.  The status never changes. */
  method UpdateAppointment(db: Db, caller: Caller, now: Millis, id: Id, appointmentDate: Option<Millis>,
                           services: Option<seq<Service>>, note: Option<string>)
    returns (r: Result<Appointment>)
    requires db.Valid()
    modifies db`appointments
    ensures db.Valid()
    ensures ChangeRefusal(old(db.appointments), caller, id, now).Some? ==>
      r == Err(ChangeRefusal(old(db.appointments), caller, id, now).value) && unchanged(db)
    ensures ChangeRefusal(old(db.appointments), caller, id, now).None? && appointmentDate.Some?
            && appointmentDate.value < now ==>
      r == Err(BadRequest(PastDate)) && unchanged(db)
    ensures ChangeRefusal(old(db.appointments), caller, id, now).None?
            && !(appointmentDate.Some? && appointmentDate.value < now) ==>
      && r == SaveAppointment(Edit(old(db.appointments)[id], appointmentDate, services, note))
      && (r.Ok? ==> db.appointments == old(db.appointments)[id := r.value]
                    && r.value.status == old(db.appointments)[id].status)
      && (r.Err? ==> unchanged(db))
  {
    var refusal := ChangeRefusal(db.appointments, caller, id, now);
    if refusal.Some? {
      return Err(refusal.value);
    }
    if appointmentDate.Some? && appointmentDate.value < now {
      return Err(BadRequest(PastDate));
    }
    var a := db.appointments[id];
    var edited := a;
    if appointmentDate.Some? {
      edited := edited.(appointmentDate := appointmentDate.value);
    }
    if services.Some? {
      edited := edited.(services := services.value);
    }
    if TruthyText(note) {
      edited := edited.(note := note);
    }
    assert edited == Edit(a, appointmentDate, services, note);
    r := SaveAppointment(edited);
    if r.Ok? {
      PutAppointmentKeepsAppointmentsValid(db.appointments, id, r.value);
      db.appointments := db.appointments[id := r.value];
    }
  }

  /** The guard chain of `reviewAppointment`: the rating is checked before
      the appointment is even looked up, then ownership, then that the
      appointment is completed. */
  function ReviewRefusal(appointments: map<Id, Appointment>, caller: Caller, id: Id, rating: Option<int>)
    : (e: Option<Error>)
    ensures e.None? <==> && rating.Some? && 1 <= rating.value <= 5
                         && id in appointments && appointments[id].customer == caller.id
                         && appointments[id].status == AppointmentStatus.Completed
    ensures !(rating.Some? && 1 <= rating.value <= 5) ==> e == Some(BadRequest(RatingOutOfRange))
    ensures rating.Some? && 1 <= rating.value <= 5 && id !in appointments ==> e == Some(NotFound)
    ensures (rating.Some? && 1 <= rating.value <= 5 && id in appointments
             && appointments[id].customer != caller.id) ==> e == Some(Forbidden)
    ensures (rating.Some? && 1 <= rating.value <= 5 && id in appointments
             && appointments[id].customer == caller.id && appointments[id].status != AppointmentStatus.Completed)
            ==> e == Some(BadRequest(NotCompleted))
  {
    if !TruthyNumber(rating) || rating.value < 1 || rating.value > 5 then Some(BadRequest(RatingOutOfRange))
    else if id !in appointments then Some(NotFound)
    else if appointments[id].customer != caller.id then Some(Forbidden)
    else if appointments[id].status != AppointmentStatus.Completed then Some(BadRequest(NotCompleted))
    else None
  }

  /** An appointment that can be reviewed can no longer be cancelled or
      edited, and one that can still be changed cannot be reviewed. */
  lemma ReviewAndChangeExclude(appointments: map<Id, Appointment>, caller: Caller, id: Id,
                               rating: Option<int>, now: Millis)
    ensures !(ReviewRefusal(appointments, caller, id, rating).None?
              && ChangeRefusal(appointments, caller, id, now).None?)
    ensures ReviewRefusal(appointments, caller, id, rating).None? ==>
      ChangeRefusal(appointments, caller, id, now) == Some(BadRequest(AppointmentClosed))
  {
  }

  /** `reviewAppointment`: after the guards, only the review changes, to the
      given rating and comment stamped with the current time. */
  method ReviewAppointment(db: Db, caller: Caller, now: Millis, id: Id, rating: Option<int>,
                           comment: Option<string>) returns (r: Result<Appointment>)
    requires db.Valid()
    modifies db`appointments
    ensures db.Valid()
    ensures ReviewRefusal(old(db.appointments), caller, id, rating).Some? ==>
      r == Err(ReviewRefusal(old(db.appointments), caller, id, rating).value) && unchanged(db)
    ensures ReviewRefusal(old(db.appointments), caller, id, rating).None? ==>
      && r == Ok(old(db.appointments)[id].(review := Some(Review(rating.value, comment, now))))
      && db.appointments == old(db.appointments)[id := r.value]
  {
    var refusal := ReviewRefusal(db.appointments, caller, id, rating);
    if refusal.Some? {
      return Err(refusal.value);
    }
    var a := db.appointments[id];
    assert ValidAppointment(a);
    var reviewed := a.(review := Some(Review(rating.value, comment, now)));
    SaveKeepsStatusAndReviewChanges(a, a.status, reviewed.review);
    assert a.(status := a.status, review := reviewed.review) == reviewed;
    var saved := SaveAppointment(reviewed);
    PutAppointmentKeepsAppointmentsValid(db.appointments, id, saved.value);
    db.appointments := db.appointments[id := saved.value];
    r := Ok(saved.value);
  }
}
