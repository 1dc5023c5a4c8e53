/** The staff member's request handlers: registering for shifts, moving
    an appointment through its statuses, checking in and out of a shift,
    and the attendance report of a shift. */
module StaffController {
  import opened Common
  import opened Time
  import opened AppointmentModel
  import opened ShiftModel
  import opened UserModel
  import opened Store

  /** `registerShift`: refuses a date before the start of today (all of
      today is accepted), then creates the shift as available.  The save
      refuses a missing date or time slot; the unique index then refuses a
      second shift with the same staff member, date and time slot. */
  method RegisterShift(db: Db, caller: Caller, clock: Clock, date: Option<Millis>, timeSlot: Choice<TimeSlot>,
                       note: Option<string>) returns (r: Result<Id>)
    requires db.Valid()
    modifies db`shifts, db`nextId
    ensures db.Valid()
    ensures date.Some? && date.value < StartOfDay(clock.now, clock.utcOffset) ==>
      r == Err(BadRequest(PastDate)) && unchanged(db)
    ensures !(date.Some? && date.value < StartOfDay(clock.now, clock.utcOffset)) && (date.None? || !timeSlot.Chosen?) ==>
      r == Err(SchemaViolation) && unchanged(db)
    ensures date.Some? && date.value >= StartOfDay(clock.now, clock.utcOffset) && timeSlot.Chosen? ==>
      var shift := Shift(caller.id, date.value, timeSlot.value, Available, note, None, None);
      && (SlotTaken(old(db.shifts), Key(shift)) ==> r == Err(BadRequest(DuplicateShift)) && unchanged(db))
      && (!SlotTaken(old(db.shifts), Key(shift)) ==>
            && r == Ok(old(db.nextId))
            && db.shifts == old(db.shifts)[old(db.nextId) := shift]
            && db.nextId == old(db.nextId) + 1
            && SlotTaken(db.shifts, Key(shift)))
  {
    if date.Some? && date.value < StartOfDay(clock.now, clock.utcOffset) {
      return Err(BadRequest(PastDate));
    }
    if date.None? || !timeSlot.Chosen? {
      return Err(SchemaViolation);
    }
    var shift := Shift(caller.id, date.value, timeSlot.value, Available, note, None, None);
    if SlotTaken(db.shifts, Key(shift)) {
      return Err(BadRequest(DuplicateShift));
    }
    InsertShiftKeepsShiftsValid(db.shifts, db.nextId, shift);
    db.shifts := db.shifts[db.nextId := shift];
    r := Ok(db.nextId);
    db.nextId := db.nextId + 1;
  }

  /** The statuses a staff member may move an appointment to from each
      status. */
  function AppointmentNext(s: AppointmentStatus): (next: set<AppointmentStatus>)
    ensures Pending !in next
    ensures Confirmed in next ==> s == Pending
    ensures AppointmentStatus.Completed in next ==> s == Confirmed
  {
    match s
    case Pending => {Confirmed, AppointmentStatus.Cancelled}
    case Confirmed => {AppointmentStatus.Completed, AppointmentStatus.Cancelled}
    case Completed => {}
    case Cancelled => {}
  }

  /** How far along an appointment is. */
  function AppointmentStage(s: AppointmentStatus): int {
    match s
    case Pending => 0
    case Confirmed => 1
    case Completed => 2
    case Cancelled => 2
  }

  /** The table only moves forward: no status leads to itself, exactly the
      closed statuses lead nowhere, and cancelling is possible from every
      open status. */
  lemma AppointmentTableMovesForward(s: AppointmentStatus)
    ensures s !in AppointmentNext(s)
    ensures forall t :: t in AppointmentNext(s) ==> AppointmentStage(s) < AppointmentStage(t)
    ensures AppointmentNext(s) == {} <==> Closed(s)
    ensures AppointmentStatus.Cancelled in AppointmentNext(s) <==> !Closed(s)
  {
  }

  /** Any sequence of allowed status changes has at most three statuses
      and never returns to a status it had. */
  lemma AppointmentRunsAreShort(run: seq<AppointmentStatus>)
    requires IsRun(run, AppointmentNext)
    ensures |run| <= 3
    ensures forall i, j :: 0 <= i < j < |run| ==> run[i] != run[j]
  {
    forall s, t | t in AppointmentNext(s) ensures AppointmentStage(s) < AppointmentStage(t) {
      AppointmentTableMovesForward(s);
    }
    RunRanksRise(run, AppointmentNext, AppointmentStage);
    if |run| > 1 {
      assert AppointmentStage(run[0]) + (|run| - 1) <= AppointmentStage(run[|run| - 1]);
    }
  }

  /** The guard chain of `updateAppointmentStatus`: the lookup matches the
      id and the caller as the appointment's staff member, so someone
      else's appointment reads as missing; then the table decides. */
  function StatusRefusal(appointments: map<Id, Appointment>, caller: Caller, id: Id,
                         status: Choice<AppointmentStatus>): (e: Option<Error>)
    ensures e.None? <==> && id in appointments && appointments[id].staff == caller.id
                         && status.Chosen? && status.value in AppointmentNext(appointments[id].status)
    ensures !(id in appointments && appointments[id].staff == caller.id) ==> e == Some(NotFound)
    ensures e.Some? && id in appointments && appointments[id].staff == caller.id ==>
      e == Some(BadRequest(TransitionRefused))
  {
    if id !in appointments || appointments[id].staff != caller.id then Some(NotFound)
    else if !status.Chosen? || status.value !in AppointmentNext(appointments[id].status)
    then Some(BadRequest(TransitionRefused))
    else None
  }

  /** `updateAppointmentStatus`: after the guards, only the status changes. */
  method UpdateAppointmentStatus(db: Db, caller: Caller, id: Id, status: Choice<AppointmentStatus>)
    returns (r: Result<Appointment>)
    requires db.Valid()
    modifies db`appointments
    ensures db.Valid()
    ensures StatusRefusal(old(db.appointments), caller, id, status).Some? ==>
      r == Err(StatusRefusal(old(db.appointments), caller, id, status).value) && unchanged(db)
    ensures StatusRefusal(old(db.appointments), caller, id, status).None? ==>
      && r == Ok(old(db.appointments)[id].(status := status.value))
      && db.appointments == old(db.appointments)[id := r.value]
  {
    var refusal := StatusRefusal(db.appointments, caller, id, status);
    if refusal.Some? {
      return Err(refusal.value);
    }
    var a := db.appointments[id];
    assert ValidAppointment(a);
    SaveKeepsStatusAndReviewChanges(a, status.value, a.review);
    assert a.(status := status.value, review := a.review) == a.(status := status.value);
    var saved := SaveAppointment(a.(status := status.value));
    PutAppointmentKeepsAppointmentsValid(db.appointments, id, saved.value);
    db.appointments := db.appointments[id := saved.value];
    r := Ok(saved.value);
  }

  /** The guard chain of `checkInShift`: unknown shift, someone else's,
      already checked in, and a shift whose day is not today. */
  function CheckInRefusal(shifts: map<Id, Shift>, caller: Caller, clock: Clock, id: Id): (e: Option<Error>)
    ensures e.None? <==> && id in shifts && shifts[id].staff == caller.id && shifts[id].checkIn.None?
                         && SameDay(shifts[id].date, clock.now, clock.utcOffset)
    ensures id !in shifts ==> e == Some(NotFound)
    ensures id in shifts && shifts[id].staff != caller.id ==> e == Some(Forbidden)
    ensures (id in shifts && shifts[id].staff == caller.id && shifts[id].checkIn.Some?) ==>
      e == Some(BadRequest(AlreadyCheckedIn))
    ensures (id in shifts && shifts[id].staff == caller.id && shifts[id].checkIn.None?
             && !SameDay(shifts[id].date, clock.now, clock.utcOffset)) ==> e == Some(BadRequest(NotToday))
  {
    if id !in shifts then Some(NotFound)
    else if shifts[id].staff != caller.id then Some(Forbidden)
    else if shifts[id].checkIn.Some? then Some(BadRequest(AlreadyCheckedIn))
    else if !SameDay(shifts[id].date, clock.now, clock.utcOffset) then Some(BadRequest(NotToday))
    else None
  }

  /** The location recorded with an attendance: the given one, or `{}`. */
  function LocationOrEmpty(location: Option<Location>): Location {
    if location.Some? then location.value else NoLocation
  }

  /** `checkInShift`: after the guards, records the check-in at the current
      time; nothing else about the shift changes. */
  method CheckInShift(db: Db, caller: Caller, clock: Clock, id: Id, location: Option<Location>)
    returns (r: Result<Shift>)
    requires db.Valid()
    modifies db`shifts
    ensures db.Valid()
    ensures CheckInRefusal(old(db.shifts), caller, clock, id).Some? ==>
      r == Err(CheckInRefusal(old(db.shifts), caller, clock, id).value) && unchanged(db)
    ensures CheckInRefusal(old(db.shifts), caller, clock, id).None? ==>
      && r == Ok(old(db.shifts)[id].(checkIn := Some(Attendance(clock.now, LocationOrEmpty(location)))))
      && db.shifts == old(db.shifts)[id := r.value]
  {
    var refusal := CheckInRefusal(db.shifts, caller, clock, id);
    if refusal.Some? {
      return Err(refusal.value);
    }
    var shift := db.shifts[id];
    var checkedIn := shift.(checkIn := Some(Attendance(clock.now, if location.Some? then location.value else NoLocation)));
    UpdateShiftKeepsShiftsValid(db.shifts, id, checkedIn);
    db.shifts := db.shifts[id := checkedIn];
    r := Ok(checkedIn);
  }

  /** The guard chain of `checkOutShift`: unknown shift, someone else's, not
      checked in, already checked out, and a shift whose day is not
      today. */
  function CheckOutRefusal(shifts: map<Id, Shift>, caller: Caller, clock: Clock, id: Id): (e: Option<Error>)
    ensures e.None? <==> && id in shifts && shifts[id].staff == caller.id
                         && shifts[id].checkIn.Some? && shifts[id].checkOut.None?
                         && SameDay(shifts[id].date, clock.now, clock.utcOffset)
    ensures id !in shifts ==> e == Some(NotFound)
    ensures id in shifts && shifts[id].staff != caller.id ==> e == Some(Forbidden)
    ensures (id in shifts && shifts[id].staff == caller.id && shifts[id].checkIn.None?) ==>
      e == Some(BadRequest(NotCheckedIn))
    ensures (id in shifts && shifts[id].staff == caller.id && shifts[id].checkIn.Some?
             && shifts[id].checkOut.Some?) ==> e == Some(BadRequest(AlreadyCheckedOut))
    ensures (id in shifts && shifts[id].staff == caller.id && shifts[id].checkIn.Some?
             && shifts[id].checkOut.None? && !SameDay(shifts[id].date, clock.now, clock.utcOffset)) ==>
      e == Some(BadRequest(NotToday))
  {
    if id !in shifts then Some(NotFound)
    else if shifts[id].staff != caller.id then Some(Forbidden)
    else if shifts[id].checkIn.None? then Some(BadRequest(NotCheckedIn))
    else if shifts[id].checkOut.Some? then Some(BadRequest(AlreadyCheckedOut))
    else if !SameDay(shifts[id].date, clock.now, clock.utcOffset) then Some(BadRequest(NotToday))
    else None
  }

  /** `checkOutShift`: after the guards, records the check-out at the
      current time and marks the shift completed; the check-in stays. */
  method CheckOutShift(db: Db, caller: Caller, clock: Clock, id: Id, location: Option<Location>)
    returns (r: Result<Shift>)
    requires db.Valid()
    modifies db`shifts
    ensures db.Valid()
    ensures CheckOutRefusal(old(db.shifts), caller, clock, id).Some? ==>
      r == Err(CheckOutRefusal(old(db.shifts), caller, clock, id).value) && unchanged(db)
    ensures CheckOutRefusal(old(db.shifts), caller, clock, id).None? ==>
      && r == Ok(old(db.shifts)[id].(checkOut := Some(Attendance(clock.now, LocationOrEmpty(location))),
                                      status := ShiftStatus.Completed))
      && db.shifts == old(db.shifts)[id := r.value]
  {
    var refusal := CheckOutRefusal(db.shifts, caller, clock, id);
    if refusal.Some? {
      return Err(refusal.value);
    }
    var shift := db.shifts[id];
    var checkedOut := shift.(checkOut := Some(Attendance(clock.now, if location.Some? then location.value else NoLocation)),
                             status := ShiftStatus.Completed);
    UpdateShiftKeepsShiftsValid(db.shifts, id, checkedOut);
    db.shifts := db.shifts[id := checkedOut];
    r := Ok(checkedOut);
  }

  /** What the attendance report shows about a shift. */
  datatype AttendanceReport = AttendanceReport(
    shiftId: Id,
    date: Millis,
    timeSlot: TimeSlot,
    status: ShiftStatus,
    checkIn: Option<Attendance>,
    checkOut: Option<Attendance>,
    workingHours: Option<real>)

  /** `getShiftAttendance`: the owner or an administrator sees the shift's
      attendance; the working hours are present only once both check-in
      and check-out are recorded, and are then the hours between them. */
  function ShiftAttendance(shifts: map<Id, Shift>, caller: Caller, id: Id): (r: Result<AttendanceReport>)
    ensures id !in shifts ==> r == Err(NotFound)
    ensures id in shifts && shifts[id].staff != caller.id && caller.role != Admin ==> r == Err(Forbidden)
    ensures r.Ok? <==> id in shifts && (shifts[id].staff == caller.id || caller.role == Admin)
    ensures r.Ok? ==> && r.value.shiftId == id && r.value.date == shifts[id].date
                      && r.value.timeSlot == shifts[id].timeSlot && r.value.status == shifts[id].status
    ensures r.Ok? ==> && r.value.checkIn == shifts[id].checkIn && r.value.checkOut == shifts[id].checkOut
                      && (r.value.workingHours.Some? <==> shifts[id].checkIn.Some? && shifts[id].checkOut.Some?)
    ensures r.Ok? && r.value.workingHours.Some? ==>
      r.value.workingHours.value * (HourMs as real)
        == (shifts[id].checkOut.value.time - shifts[id].checkIn.value.time) as real
  {
    if id !in shifts then Err(NotFound)
    else
      var s := shifts[id];
      if s.staff != caller.id && caller.role != Admin then Err(Forbidden)
      else
        Ok(AttendanceReport(id, s.date, s.timeSlot, s.status, s.checkIn, s.checkOut,
                            if s.checkIn.Some? && s.checkOut.Some?
                            then Some(HoursBetween(s.checkIn.value.time, s.checkOut.value.time))
                            else None))
  }

  /** Both attendance records of a shift are taken on the shift's own day,
      so the reported working time is less than a day in either
      direction. */
  lemma WorkingHoursWithinADay(date: Millis, checkIn: Millis, checkOut: Millis, utcOffset: Millis)
    requires SameDay(date, checkIn, utcOffset) && SameDay(date, checkOut, utcOffset)
    ensures -24.0 < HoursBetween(checkIn, checkOut) < 24.0
  {
    var m := StartOfDay(date, utcOffset);
    assert m <= checkIn < m + DayMs && m <= checkOut < m + DayMs;
    assert -DayMs < checkOut - checkIn < DayMs;
  }

  /** After a check-in at `t1` and a check-out at `t2`, the report shows
      `t2 - t1` in hours, which is not negative when the check-out came
      later. */
  lemma ReportAfterCheckOut(shifts: map<Id, Shift>, id: Id, caller: Caller, t1: Millis, t2: Millis,
                            in1: Location, out2: Location)
    requires id in shifts && shifts[id].staff == caller.id
    requires t1 <= t2
    ensures var done := shifts[id].(checkIn := Some(Attendance(t1, in1)),
                                    checkOut := Some(Attendance(t2, out2)), status := ShiftStatus.Completed);
            var r := ShiftAttendance(shifts[id := done], caller, id);
            && r.Ok? && r.value.workingHours == Some(HoursBetween(t1, t2))
            && r.value.workingHours.value >= 0.0
  {
  }
}
