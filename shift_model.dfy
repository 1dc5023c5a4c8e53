/** The Shift schema: the time-slot and status enums, the attendance
    records written by check-in and check-out, and the unique index on
    (staff, date, timeSlot). */
module ShiftModel {
  import opened Common
  import opened Time

  datatype TimeSlot = Morning | Afternoon | Evening

  datatype ShiftStatus = Available | Booked | Completed | Cancelled

  /** The free-form location object a check-in or check-out carries. */
  datatype Location = Location(fields: map<string, string>)

  const NoLocation: Location := Location(map[])

  datatype Attendance = Attendance(time: Millis, location: Location)

  datatype Shift = Shift(
    staff: Id,
    date: Millis,
    timeSlot: TimeSlot,
    status: ShiftStatus,
    note: Option<string>,
    checkIn: Option<Attendance>,
    checkOut: Option<Attendance>)

  /** The key of the unique index. */
  datatype SlotKey = SlotKey(staff: Id, date: Millis, timeSlot: TimeSlot)

  function Key(s: Shift): SlotKey {
    SlotKey(s.staff, s.date, s.timeSlot)
  }

  /** No two stored shifts share a key. */
  ghost predicate UniqueSlots(shifts: map<Id, Shift>) {
    forall a, b :: a in shifts && b in shifts && a != b ==> Key(shifts[a]) != Key(shifts[b])
  }

  /** Some stored shift has the key: an insert with it hits the index. */
  predicate SlotTaken(shifts: map<Id, Shift>, key: SlotKey) {
    exists id :: id in shifts && Key(shifts[id]) == key
  }

  /** Inserting a shift whose key is free keeps the keys unique, and takes
      the key, so a second insert with it is refused. */
  lemma InsertKeepsSlotsUnique(shifts: map<Id, Shift>, id: Id, s: Shift)
    requires UniqueSlots(shifts) && id !in shifts && !SlotTaken(shifts, Key(s))
    ensures UniqueSlots(shifts[id := s])
    ensures SlotTaken(shifts[id := s], Key(s))
  {
    var after := shifts[id := s];
    assert after[id] == s;
    forall a, b | a in after && b in after && a != b
      ensures Key(after[a]) != Key(after[b])
    {
      if a == id {
        assert Key(after[b]) == Key(shifts[b]);
      } else if b == id {
        assert Key(after[a]) == Key(shifts[a]);
      }
    }
  }

  /** Replacing a stored shift by one with the same key keeps the keys
      unique. */
  lemma UpdateKeepsSlotsUnique(shifts: map<Id, Shift>, id: Id, s: Shift)
    requires UniqueSlots(shifts) && id in shifts && Key(s) == Key(shifts[id])
    ensures UniqueSlots(shifts[id := s])
  {
    var after := shifts[id := s];
    forall a, b | a in after && b in after && a != b
      ensures Key(after[a]) != Key(after[b])
    {
      assert Key(after[a]) == Key(shifts[a]) && Key(after[b]) == Key(shifts[b]);
    }
  }

  /** The attendance records of a shift come in order: a check-out only
      after a check-in. */
  predicate AttendanceInOrder(s: Shift) {
    s.checkOut.Some? ==> s.checkIn.Some?
  }
}
