/** Instants, local calendar days and the durations the handlers compare.
    Instants are integer milliseconds since the epoch, as JavaScript Dates
    hold them. */
module Time {

  type Millis = int

  const MinuteMs: int := 60 * 1000
  const HourMs: int := 60 * MinuteMs
  const DayMs: int := 24 * HourMs

  /** What a handler reads from the environment: the current instant and the
      offset of the server's local time zone from UTC. */
  datatype Clock = Clock(now: Millis, utcOffset: Millis)

  /** Local midnight at or before `t`: what `d.setHours(0, 0, 0, 0)` yields for
      a Date `d` holding `t` in a zone `utcOffset` ms ahead of UTC. */
  function StartOfDay(t: Millis, utcOffset: Millis): (m: Millis)
    ensures m <= t < m + DayMs
    ensures (m + utcOffset) % DayMs == 0
  {
    t - (t + utcOffset) % DayMs
  }

  /** Two instants fall on the same local calendar day. */
  predicate SameDay(a: Millis, b: Millis, utcOffset: Millis) {
    StartOfDay(a, utcOffset) == StartOfDay(b, utcOffset)
  }

  /** Two local midnights are a whole number of days apart. */
  lemma MidnightsDayApart(a: Millis, b: Millis, utcOffset: Millis)
    requires (a + utcOffset) % DayMs == 0 && (b + utcOffset) % DayMs == 0
    requires a < b
    ensures a + DayMs <= b
  {
    var i := (a + utcOffset) / DayMs;
    var j := (b + utcOffset) / DayMs;
    assert a + utcOffset == i * DayMs;
    assert b + utcOffset == j * DayMs;
    assert i < j;
    assert (j - i) * DayMs >= DayMs;
  }

  /** The midnight of a day is the only midnight within 24 hours at or
      before any instant of that day. */
  lemma {:induction false} StartOfDayUnique(t: Millis, m: Millis, utcOffset: Millis)
    requires (m + utcOffset) % DayMs == 0
    requires m <= t < m + DayMs
    ensures StartOfDay(t, utcOffset) == m
  {
    var s := StartOfDay(t, utcOffset);
    if s < m {
      MidnightsDayApart(s, m, utcOffset);
    } else if m < s {
      MidnightsDayApart(m, s, utcOffset);
    }
  }

  /** `date < today's midnight` holds exactly when `date` lies on an earlier
      local day than `now`: the whole of today is accepted. */
  lemma BeforeTodayIsEarlierDay(date: Millis, now: Millis, utcOffset: Millis)
    ensures date < StartOfDay(now, utcOffset)
        <==> StartOfDay(date, utcOffset) < StartOfDay(now, utcOffset)
  {
    var d, n := StartOfDay(date, utcOffset), StartOfDay(now, utcOffset);
    if d < n {
      MidnightsDayApart(d, n, utcOffset);
    }
  }

  /** The cutoff the appointment handlers apply: fewer than two hours remain
      before `appointment`. */
  predicate WithinCutoff(appointment: Millis, now: Millis) {
    appointment - now < 2 * HourMs
  }

  /** The handlers compute `(appointment - now) / (1000 * 60 * 60) < 2` on
      numbers; over whole milliseconds that is the integer test above. */
  lemma CutoffMatchesHourDivision(appointment: Millis, now: Millis)
    ensures ((appointment - now) as real) / (HourMs as real) < 2.0
        <==> WithinCutoff(appointment, now)
  {
  }

  /** Two hours and one minute ahead is outside the cutoff, exactly two hours
      ahead too, and one hour fifty-nine minutes ahead is inside it. */
  lemma CutoffBoundary(now: Millis)
    ensures !WithinCutoff(now + 2 * HourMs + MinuteMs, now)
    ensures !WithinCutoff(now + 2 * HourMs, now)
    ensures WithinCutoff(now + 2 * HourMs - MinuteMs, now)
  {
  }

  /** Elapsed time between two instants in hours, as the attendance report
      computes it (before it is formatted with two decimals). */
  function HoursBetween(from: Millis, to: Millis): (h: real)
    ensures h * (HourMs as real) == (to - from) as real
  {
    ((to - from) as real) / (HourMs as real)
  }
}
