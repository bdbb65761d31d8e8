// The day-occupancy query `hasBookingsOnDate` (main.go:436-446).  A day is
// identified by the instant of its midnight `d`; the next midnight is d + DAY
// (one fixed time reference, so every day has the same length).  Days of the
// calendar start at the multiples of DAY.

module Calendar {
  import opened Types

  /** Seconds in a day. */
  const DAY: int := 86400

  /** The reference notion: instant t lies in the half-open day [d, d + DAY). */
  predicate InDay(t: int, d: int)
  {
    d <= t < d + DAY
  }

  /** The per-booking condition of main.go:441: the start is strictly after d and strictly before d + DAY. */
  predicate StartsOnDay(b: Booking, d: int)
  {
    d < b.startTime && b.startTime < d + DAY
  }

  /** `hasBookingsOnDate`: some booking, of any space and any status, starts on day d. */
  predicate HasBookingOnDay(bookings: seq<Booking>, d: int)
  {
    exists i :: 0 <= i < |bookings| && StartsOnDay(bookings[i], d)
  }

  /** Relation to the half-open day: every start in [d, d + DAY) counts except the midnight d itself. */
  lemma OnDayIsHalfOpenDayButMidnight(bookings: seq<Booking>, d: int)
    ensures HasBookingOnDay(bookings, d) <==>
              exists i :: 0 <= i < |bookings| && InDay(bookings[i].startTime, d) && bookings[i].startTime != d
  {
  }

  /** Appending a booking adds exactly its own start to the day query. */
  lemma {:induction false} HasBookingOnDayAppend(bookings: seq<Booking>, b: Booking, d: int)
    ensures HasBookingOnDay(bookings + [b], d) <==> HasBookingOnDay(bookings, d) || StartsOnDay(b, d)
  {
    var all := bookings + [b];
    if HasBookingOnDay(all, d) {
      var i :| 0 <= i < |all| && StartsOnDay(all[i], d);
      if i < |bookings| {
        assert all[i] == bookings[i];
      }
    }
    if HasBookingOnDay(bookings, d) {
      var i :| 0 <= i < |bookings| && StartsOnDay(bookings[i], d);
      assert all[i] == bookings[i];
    }
    if StartsOnDay(b, d) {
      assert all[|bookings|] == b;
    }
  }

  /**
   * A booking that starts exactly at a midnight of the calendar is counted on
   * no day at all: adding it never changes the answer for any calendar day.
   */
  lemma MidnightStartOnNoDay(bookings: seq<Booking>, b: Booking, d: int)
    requires b.startTime % DAY == 0 && d % DAY == 0
    ensures HasBookingOnDay(bookings + [b], d) == HasBookingOnDay(bookings, d)
  {
    HasBookingOnDayAppend(bookings, b, d);
    var m := b.startTime / DAY;
    var k := d / DAY;
    assert b.startTime == m * DAY;
    assert d == k * DAY;
    assert !StartsOnDay(b, d);
  }

  /** Any other start is counted on exactly one calendar day: the one beginning at the preceding midnight. */
  lemma OtherStartOnItsDay(bookings: seq<Booking>, b: Booking, d: int)
    requires b.startTime % DAY != 0 && d % DAY == 0
    ensures StartsOnDay(b, d) <==> d == b.startTime - b.startTime % DAY
    ensures HasBookingOnDay(bookings + [b], b.startTime - b.startTime % DAY)
  {
    HasBookingOnDayAppend(bookings, b, b.startTime - b.startTime % DAY);
    var m := b.startTime / DAY;
    var k := d / DAY;
    assert b.startTime == m * DAY + b.startTime % DAY;
    assert d == k * DAY;
  }

  /** The query reads only start times: spaces, end times, statuses and notes cannot change it. */
  lemma ScheduleDeterminesDay(a: seq<Booking>, b: seq<Booking>, d: int)
    requires |a| == |b| && forall i :: 0 <= i < |a| ==> a[i].startTime == b[i].startTime
    ensures HasBookingOnDay(a, d) == HasBookingOnDay(b, d)
  {
    if HasBookingOnDay(a, d) {
      var i :| 0 <= i < |a| && StartsOnDay(a[i], d);
      assert StartsOnDay(b[i], d);
    }
    if HasBookingOnDay(b, d) {
      var i :| 0 <= i < |b| && StartsOnDay(b[i], d);
      assert StartsOnDay(a[i], d);
    }
  }
}
