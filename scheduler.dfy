// The BookingSystem of main.go (main.go:28-33) with the state it changes in
// place: the `spaces` and `bookings` slices.  Each read-only query is a loop
// verified against its specification in Conflict, Calendar or Spaces; each
// mutation is the in-memory effect of a dialog's submit handler, applied only
// when the database call before it succeeds.  A database call is its outcome:
// a boolean, and for an insert the id the database assigned.

module Scheduler {
  import opened Types
  import opened Conflict
  import opened Calendar
  import opened Spaces
  import opened Rows

  /** Why an operation showed an error dialog. */
  datatype Failure = EndBeforeStart | ConflictWithExisting | DatabaseError

  /** Done: applied.  Ignored: the handler returned silently.  Failed: it showed an error. */
  datatype Outcome = Done | Ignored | Failed(failure: Failure)

  /** Create's validation (main.go:483-491): the end is not before the start and there is no reported conflict. */
  predicate Admissible(bookings: seq<Booking>, space: string, start: int, end: int)
  {
    !(end < start) && !HasConflict(bookings, space, start, end)
  }

  class BookingSystem {
    var spaces: seq<string>
    var bookings: seq<Booking>

    /**
     * NewBookingSystem (main.go:35-72): the four default spaces, no bookings,
     * then a load.  Opening the database and creating the tables are not modelled.
     */
    constructor (q: Query)
      requires q.Returned? ==> AllInRange(DefaultSpaces, q.scans)
      ensures spaces == DefaultSpaces
      ensures bookings == if q.QueryFailed? then [] else Loaded(DefaultSpaces, q.scans)
    {
      spaces := DefaultSpaces;
      bookings := [];
      new;
      LoadBookings(q);
    }

    /**
     * loadBookings (main.go:74-99): on a query error the list is kept; otherwise
     * it is replaced by one booking per row that scans, each row's space
     * position turned into the name at that position.
     */
    method LoadBookings(q: Query)
      requires q.Returned? ==> AllInRange(spaces, q.scans)
      modifies this
      ensures spaces == old(spaces)
      ensures bookings == if q.QueryFailed? then old(bookings) else Loaded(spaces, q.scans)
    {
      if q.QueryFailed? {
        return;
      }
      var scans := q.scans;
      bookings := [];
      for i := 0 to |scans|
        invariant spaces == old(spaces)
        invariant AllInRange(spaces, scans[..i])
        invariant bookings == Loaded(spaces, scans[..i])
      {
        assert scans[..i + 1][..i] == scans[..i];
        match scans[i]
        case ScanFailed =>
        case Scanned(r) =>
          bookings := bookings + [Booking(r.id, spaces[r.spaceId], r.startTime, r.endTime, r.user, r.notes, r.status)];
      }
      assert scans[..|scans|] == scans;
    }

    /** hasConflictingBooking (main.go:520-530). */
    method HasConflictingBooking(space: string, start: int, end: int) returns (found: bool)
      ensures found == HasConflict(bookings, space, start, end)
    {
      for i := 0 to |bookings|
        invariant forall j :: 0 <= j < i ==> !Clashes(bookings[j], space, start, end)
      {
        var b := bookings[i];
        if b.space == space &&
           ((b.startTime < start && start < b.endTime) ||
            (b.startTime < end && end < b.endTime) ||
            (start < b.startTime && b.endTime < end))
        {
          return true;
        }
      }
      return false;
    }

    /** hasBookingsOnDate (main.go:436-446), for the day whose midnight is `date`. */
    method HasBookingsOnDate(date: int) returns (found: bool)
      ensures found == HasBookingOnDay(bookings, date)
    {
      var nextDay := date + DAY;
      for i := 0 to |bookings|
        invariant forall j :: 0 <= j < i ==> !StartsOnDay(bookings[j], date)
      {
        if date < bookings[i].startTime && bookings[i].startTime < nextDay {
          return true;
        }
      }
      return false;
    }

    /** getSpaceID (main.go:532-539). */
    method GetSpaceId(name: string) returns (id: int)
      ensures id == SpaceIndex(spaces, name)
    {
      for i := 0 to |spaces|
        invariant name !in spaces[..i]
      {
        if spaces[i] == name {
          FirstOccurrenceUnique(spaces, name, i, SpaceIndex(spaces, name));
          return i;
        }
        assert spaces[..i + 1] == spaces[..i] + [spaces[i]];
      }
      assert spaces[..|spaces|] == spaces;
      return -1;
    }

    /** The booking count shown for the space at list position `index` (main.go:227-233). */
    method BookingCount(index: int) returns (count: nat)
      requires 0 <= index < |spaces|
      ensures count == CountFor(bookings, spaces[index])
    {
      var spaceName := spaces[index];
      count := 0;
      for i := 0 to |bookings|
        invariant count == CountFor(bookings[..i], spaceName)
      {
        assert bookings[..i + 1][..i] == bookings[..i];
        if bookings[i].space == spaceName {
          count := count + 1;
        }
      }
      assert bookings[..|bookings|] == bookings;
    }

    /**
     * The submit body of the new-booking dialog after parsing (main.go:482-513).
     * `sent` is the row handed to the INSERT, if it was reached, with the id the
     * database assigned (`newId`); `dbOk` is whether the INSERT succeeded.
     */
    method CreateBooking(space: string, start: int, end: int, user: string, notes: string,
                         dbOk: bool, newId: int)
      returns (outcome: Outcome, sent: Option<Row>)
      modifies this
      ensures spaces == old(spaces)
      ensures end < start ==>
                outcome == Failed(EndBeforeStart) && sent == None && bookings == old(bookings)
      ensures !(end < start) && HasConflict(old(bookings), space, start, end) ==>
                outcome == Failed(ConflictWithExisting) && sent == None && bookings == old(bookings)
      ensures Admissible(old(bookings), space, start, end) ==>
                sent == Some(RowOf(spaces, Booking(newId, space, start, end, user, notes, Confirmed)))
      ensures Admissible(old(bookings), space, start, end) && !dbOk ==>
                outcome == Failed(DatabaseError) && bookings == old(bookings)
      ensures Admissible(old(bookings), space, start, end) && dbOk ==>
                && outcome == Done
                && bookings == old(bookings) + [Booking(newId, space, start, end, user, notes, Confirmed)]
      ensures outcome == Done && space in spaces ==>
                sent.Some? && InRange(spaces, sent.value) && ToBooking(spaces, sent.value) == bookings[|bookings| - 1]
      ensures WellFormed(old(bookings)) ==> WellFormed(bookings)
    {
      if end < start {
        return Failed(EndBeforeStart), None;
      }
      var conflict := HasConflictingBooking(space, start, end);
      if conflict {
        return Failed(ConflictWithExisting), None;
      }
      var spaceId := GetSpaceId(space);
      sent := Some(Row(newId, spaceId, start, end, user, notes, Confirmed));
      if !dbOk {
        return Failed(DatabaseError), sent;
      }
      bookings := bookings + [Booking(newId, space, start, end, user, notes, Confirmed)];
      outcome := Done;
    }

    /**
     * The cancel confirmation (main.go:338-351) for table row `row`; a row past
     * the end of the list is ignored (main.go:328-330).  The UPDATE targets the
     * row's id; `dbOk` is whether it succeeded.
     */
    method CancelBooking(row: nat, dbOk: bool) returns (outcome: Outcome)
      modifies this
      ensures spaces == old(spaces)
      ensures row >= |old(bookings)| ==> outcome == Ignored && bookings == old(bookings)
      ensures row < |old(bookings)| && !dbOk ==> outcome == Failed(DatabaseError) && bookings == old(bookings)
      ensures row < |old(bookings)| && dbOk ==>
                outcome == Done && bookings == old(bookings)[row := old(bookings)[row].(status := Cancelled)]
      ensures SameSchedule(old(bookings), bookings)
      ensures WellFormed(old(bookings)) ==> WellFormed(bookings)
    {
      if row >= |bookings| {
        return Ignored;
      }
      if !dbOk {
        return Failed(DatabaseError);
      }
      bookings := bookings[row := bookings[row].(status := Cancelled)];
      outcome := Done;
    }

    /**
     * The edit-notes form (main.go:366-379) for table row `row`; a row past the
     * end of the list is ignored (main.go:328-330).
     */
    method EditNotes(row: nat, text: string, dbOk: bool) returns (outcome: Outcome)
      modifies this
      ensures spaces == old(spaces)
      ensures row >= |old(bookings)| ==> outcome == Ignored && bookings == old(bookings)
      ensures row < |old(bookings)| && !dbOk ==> outcome == Failed(DatabaseError) && bookings == old(bookings)
      ensures row < |old(bookings)| && dbOk ==>
                outcome == Done && bookings == old(bookings)[row := old(bookings)[row].(notes := text)]
      ensures SameSchedule(old(bookings), bookings)
      ensures WellFormed(old(bookings)) ==> WellFormed(bookings)
    {
      if row >= |bookings| {
        return Ignored;
      }
      if !dbOk {
        return Failed(DatabaseError);
      }
      bookings := bookings[row := bookings[row].(notes := text)];
      outcome := Done;
    }

    /** The add-space form (main.go:247-258): an empty name is ignored; duplicates are accepted. */
    method AddSpace(name: string, dbOk: bool) returns (outcome: Outcome)
      modifies this
      ensures bookings == old(bookings)
      ensures name == "" ==> outcome == Ignored && spaces == old(spaces)
      ensures name != "" && !dbOk ==> outcome == Failed(DatabaseError) && spaces == old(spaces)
      ensures name != "" && dbOk ==> outcome == Done && spaces == old(spaces) + [name]
    {
      if name == "" {
        return Ignored;
      }
      if !dbOk {
        return Failed(DatabaseError);
      }
      spaces := spaces + [name];
      outcome := Done;
    }
  }

  /**
   * A just-created booking never blocks a second booking of the same space
   * and the same interval: the slot can be booked twice.
   */
  lemma IdenticalRebookingAdmitted(bookings: seq<Booking>, b: Booking)
    ensures Admissible(bookings + [b], b.space, b.startTime, b.endTime) ==
              Admissible(bookings, b.space, b.startTime, b.endTime)
  {
    HasConflictAppend(bookings, b, b.space, b.startTime, b.endTime);
    IdenticalNeverClashes(b);
  }

  /**
   * Cancelling row k leaves every query as it was: a cancelled booking still
   * blocks conflicting candidates, still marks its day and is still counted.
   */
  lemma {:induction false} CancelledStillCounts(bookings: seq<Booking>, k: nat, space: string, start: int, end: int, d: int)
    requires k < |bookings|
    ensures var after := bookings[k := bookings[k].(status := Cancelled)];
            && HasConflict(after, space, start, end) == HasConflict(bookings, space, start, end)
            && HasBookingOnDay(after, d) == HasBookingOnDay(bookings, d)
            && CountFor(after, space) == CountFor(bookings, space)
  {
    var after := bookings[k := bookings[k].(status := Cancelled)];
    assert SameSchedule(bookings, after);
    assert SpacesOf(bookings) == SpacesOf(after);
    ScheduleDeterminesConflict(bookings, after, space, start, end);
    ScheduleDeterminesDay(bookings, after, d);
    ScheduleDeterminesCount(bookings, after, space);
  }

  /** A successful create adds exactly one to its own space's count and leaves the others. */
  lemma CreateCountsOnce(bookings: seq<Booking>, b: Booking, name: string)
    ensures CountFor(bookings + [b], name) == CountFor(bookings, name) + (if b.space == name then 1 else 0)
  {
    assert (bookings + [b])[..|bookings|] == bookings;
  }
}
