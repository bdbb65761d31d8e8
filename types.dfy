// The entities of the in-memory booking engine (main.go): a booking row as
// the BookingSystem keeps it, and the status strings that the engine writes.
// Timestamps are integers (seconds in one fixed time reference).

module Types {

  datatype Option<T> = None | Some(value: T)

  /** One entry of the BookingSystem's `bookings` slice (main.go:18-26). */
  datatype Booking = Booking(
    id: int,
    space: string,
    startTime: int,
    endTime: int,
    user: string,
    notes: string,
    status: string)

  /** The status written by a successful create. */
  const Confirmed: string := "Confirmed"

  /** The status written by a successful cancel. */
  const Cancelled: string := "Cancelled"

  /** The spaces a new BookingSystem starts with (main.go:64). */
  const DefaultSpaces: seq<string> := ["Room A", "Room B", "Room C", "Conference Hall"]

  /** Every booking passed the create validation: its end is not before its start. */
  predicate WellFormed(bookings: seq<Booking>)
  {
    forall i :: 0 <= i < |bookings| ==> !(bookings[i].endTime < bookings[i].startTime)
  }

  /**
   * Two booking lists agree on everything the queries consult: row by row the
   * same space and the same interval.  Ids, users, notes and statuses may differ.
   */
  predicate SameSchedule(a: seq<Booking>, b: seq<Booking>)
  {
    && |a| == |b|
    && forall i :: 0 <= i < |a| ==>
         a[i].space == b[i].space && a[i].startTime == b[i].startTime && a[i].endTime == b[i].endTime
  }
}
