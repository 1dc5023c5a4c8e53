/** Shared vocabulary of the salon backend: document identifiers, optional
    request fields, and results.  Every request handler either answers with a
    record (success) or with one error response; the error kinds below follow
    the HTTP statuses the handlers send. */
module Common {

  /** A document identifier (an ObjectId in the database). */
  type Id = nat

  datatype Option<+T> = None | Some(value: T)

  /** A request field that must name a value of an enumeration: left out,
      naming a declared value, or naming something else. */
  datatype Choice<+T> = Omitted | Chosen(value: T) | Unknown

  /** Why a handler answered 400: one constructor per business rule. */
  datatype Reason =
    | NoItems              // createOrder: items missing or empty
    | NoShippingAddress    // createOrder: shippingAddress missing
    | OutOfStock           // createOrder: product.stock < item.quantity
    | OrderClosed          // cancelOrder: delivered or cancelled
    | PastDate             // a date before now (or before today, for shifts)
    | AppointmentClosed    // completed or cancelled appointment
    | TooLate              // less than two hours before the appointment
    | RatingOutOfRange     // review rating missing or outside 1..5
    | NotCompleted         // review of an appointment that is not completed
    | TransitionRefused    // status change not in the transition table
    | DuplicateShift       // unique (staff, date, timeSlot) index hit
    | AlreadyCheckedIn
    | NotCheckedIn
    | AlreadyCheckedOut
    | NotToday             // check-in/out of a shift whose day is not today

  datatype Error =
    | NotFound             // 404
    | Forbidden            // 403
    | Unauthorized         // 401
    | BadRequest(why: Reason)  // 400
    | SchemaViolation      // the schema or a unique index refused the save (the catch-all 500)

  datatype Result<+T> = Ok(value: T) | Err(error: Error)

  /** JavaScript truthiness of an optional string field: present and not "". */
  predicate TruthyText(v: Option<string>) {
    v.Some? && v.value != ""
  }

  /** JavaScript truthiness of an optional number field: present and not 0. */
  predicate TruthyNumber(v: Option<int>) {
    v.Some? && v.value != 0
  }

  /** `run` follows a transition table: each status is allowed after the
      one before it. */
  predicate IsRun<S>(run: seq<S>, next: S -> set<S>) {
    forall i :: 0 <= i < |run| - 1 ==> run[i + 1] in next(run[i])
  }

  /** When every allowed transition raises a rank, every run raises it by at
      least one per step, so no run visits a status twice. */
  lemma {:induction false} RunRaisesRank<S>(run: seq<S>, next: S -> set<S>, rank: S -> int)
    requires forall s, t :: t in next(s) ==> rank(s) < rank(t)
    requires IsRun(run, next) && |run| > 0
    ensures rank(run[0]) + |run| - 1 <= rank(run[|run| - 1])
  {
    if |run| > 1 {
      var init := run[..|run| - 1];
      assert IsRun(init, next) by {
        forall i | 0 <= i < |init| - 1 ensures init[i + 1] in next(init[i]) {
          assert init[i] == run[i] && init[i + 1] == run[i + 1];
        }
      }
      RunRaisesRank(init, next, rank);
      assert run[|run| - 1] in next(run[|run| - 2]);
    }
  }

  /** Along a run, the rank rises by at least one per step between any two
      positions, so no state occurs twice. */
  lemma RunRanksRise<S>(run: seq<S>, next: S -> set<S>, rank: S -> int)
    requires forall s, t :: t in next(s) ==> rank(s) < rank(t)
    requires IsRun(run, next)
    ensures forall i, j :: 0 <= i < j < |run| ==> rank(run[i]) + (j - i) <= rank(run[j])
    ensures forall i, j :: 0 <= i < j < |run| ==> run[i] != run[j]
  {
    forall i, j | 0 <= i < j < |run| ensures rank(run[i]) + (j - i) <= rank(run[j]) {
      var part := run[i..j + 1];
      assert IsRun(part, next) by {
        forall k | 0 <= k < |part| - 1 ensures part[k + 1] in next(part[k]) {
          assert part[k] == run[i + k] && part[k + 1] == run[i + k + 1];
        }
      }
      RunRaisesRank(part, next, rank);
    }
  }
}
