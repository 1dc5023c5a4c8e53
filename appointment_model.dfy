/** The Appointment schema: required references and date, the services
    list, the status enum, and the pre-save hook that recomputes the total
    price. */
module AppointmentModel {
  import opened Common
  import opened Time

  datatype Service = Service(name: string, price: int)

  datatype AppointmentStatus = Pending | Confirmed | Completed | Cancelled

  /** The review a customer leaves on a completed appointment. */
  datatype Review = Review(rating: int, comment: Option<string>, createdAt: Millis)

  datatype Appointment = Appointment(
    customer: Id,
    staff: Id,
    appointmentDate: Millis,
    services: seq<Service>,
    totalPrice: int,
    status: AppointmentStatus,
    note: Option<string>,
    review: Option<Review>)

  /** The pre-save hook's left fold of service prices, starting from 0. */
  function TotalPrice(services: seq<Service>): (t: int)
    ensures (forall i :: 0 <= i < |services| ==> services[i].price >= 0) ==> t >= 0
  {
    if services == [] then 0
    else TotalPrice(services[..|services| - 1]) + services[|services| - 1].price
  }

  /** Total prices add up over concatenated service lists. */
  lemma {:induction false} TotalPriceAppend(a: seq<Service>, b: seq<Service>)
    ensures TotalPrice(a + b) == TotalPrice(a) + TotalPrice(b)
  {
    if b != [] {
      assert (a + b)[..|a + b| - 1] == a + b[..|b| - 1];
      TotalPriceAppend(a, b[..|b| - 1]);
    } else {
      assert a + b == a;
    }
  }

  /** Completed and cancelled appointments can no longer be edited. */
  predicate Closed(s: AppointmentStatus) {
    s == Completed || s == Cancelled
  }

  /** What every saved appointment satisfies: each service has a non-empty
      name (its price is present by its type) and the total price is
      recomputed from the services. */
  predicate ValidAppointment(a: Appointment) {
    && (forall i :: 0 <= i < |a.services| ==> a.services[i].name != "")
    && a.totalPrice == TotalPrice(a.services)
  }

  /** Saving an appointment: the pre-save hook overwrites the total price,
      then the schema's constraints are checked. */
  function SaveAppointment(a: Appointment): (r: Result<Appointment>)
    ensures r.Ok? <==> forall i :: 0 <= i < |a.services| ==> a.services[i].name != ""
    ensures r.Ok? ==> ValidAppointment(r.value) && r.value == a.(totalPrice := r.value.totalPrice)
    ensures r.Err? ==> r.error == SchemaViolation
  {
    var saved := a.(totalPrice := TotalPrice(a.services));
    if ValidAppointment(saved) then Ok(saved) else Err(SchemaViolation)
  }

  /** The `Appointment.create` call of the booking handler: status pending,
      no review, the total price computed by the save.  The staff member
      and the date are required. */
  function NewAppointment(customer: Id, staff: Option<Id>, appointmentDate: Option<Millis>,
                          services: seq<Service>, note: Option<string>): (r: Result<Appointment>)
    ensures r.Ok? <==> staff.Some? && appointmentDate.Some?
                       && forall i :: 0 <= i < |services| ==> services[i].name != ""
    ensures r.Err? ==> r.error == SchemaViolation
    ensures r.Ok? ==> && ValidAppointment(r.value)
                      && r.value.status == Pending && r.value.review == None
                      && r.value.customer == customer && r.value.staff == staff.value
                      && r.value.appointmentDate == appointmentDate.value
                      && r.value.services == services && r.value.note == note
                      && r.value.totalPrice == TotalPrice(services)
  {
    if staff.None? || appointmentDate.None? then Err(SchemaViolation)
    else SaveAppointment(Appointment(customer, staff.value, appointmentDate.value, services, 0,
                                     Pending, note, None))
  }

  /** Saving an appointment that was saveable before, with only its status
      or its review changed, stores exactly that. */
  lemma SaveKeepsStatusAndReviewChanges(a: Appointment, status: AppointmentStatus, review: Option<Review>)
    requires ValidAppointment(a)
    ensures SaveAppointment(a.(status := status, review := review)) == Ok(a.(status := status, review := review))
  {
  }
}
