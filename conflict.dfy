// The space-scoped conflict test `hasConflictingBooking` (main.go:520-530),
// the half-open overlap predicate it is compared against, and what the
// three strict-inequality clauses do and do not flag.

module Conflict {
  import opened Types

  /** The reference notion: half-open intervals [s1, e1) and [s2, e2) share a point. */
  predicate Overlaps(s1: int, e1: int, s2: int, e2: int)
  {
    s1 < e2 && s2 < e1
  }

  /**
   * The per-booking condition of main.go:522-525: same space, and the
   * candidate's start strictly inside the booking, or its end strictly inside,
   * or the candidate strictly around it.  Status is not consulted.
   */
  predicate Clashes(b: Booking, space: string, start: int, end: int)
  {
    && b.space == space
    && (|| (b.startTime < start && start < b.endTime)
        || (b.startTime < end && end < b.endTime)
        || (start < b.startTime && b.endTime < end))
  }

  /** `hasConflictingBooking`: some booking of the list clashes with the candidate. */
  predicate HasConflict(bookings: seq<Booking>, space: string, start: int, end: int)
  {
    exists i :: 0 <= i < |bookings| && Clashes(bookings[i], space, start, end)
  }

  /**
   * The overlaps the three clauses miss: the candidate covers the booking and
   * shares at least one endpoint with it (identical intervals included).
   */
  predicate CoversSharingEndpoint(start: int, end: int, s: int, e: int)
  {
    start <= s && e <= end && (start == s || end == e)
  }

  /**
   * For a validated candidate and a validated booking, the source's test is
   * exactly "same space, overlapping, and not a cover that shares an endpoint".
   * Left to right this is soundness against the half-open reference.
   */
  lemma ClashCharacterization(b: Booking, space: string, start: int, end: int)
    requires !(end < start) && !(b.endTime < b.startTime)
    ensures Clashes(b, space, start, end) <==>
              && b.space == space
              && Overlaps(start, end, b.startTime, b.endTime)
              && !CoversSharingEndpoint(start, end, b.startTime, b.endTime)
  {
  }

  /** Soundness: a reported conflict is a same-space booking that overlaps the candidate. */
  lemma ConflictSound(bookings: seq<Booking>, space: string, start: int, end: int)
    requires !(end < start) && WellFormed(bookings)
    requires HasConflict(bookings, space, start, end)
    ensures exists i :: 0 <= i < |bookings| && bookings[i].space == space &&
                        Overlaps(start, end, bookings[i].startTime, bookings[i].endTime)
  {
    var i :| 0 <= i < |bookings| && Clashes(bookings[i], space, start, end);
    ClashCharacterization(bookings[i], space, start, end);
  }

  /** Completeness up to the missed covers: any other overlap is reported. */
  lemma ConflictCompleteExceptCovers(bookings: seq<Booking>, space: string, start: int, end: int, i: int)
    requires !(end < start) && WellFormed(bookings)
    requires 0 <= i < |bookings| && bookings[i].space == space
    requires Overlaps(start, end, bookings[i].startTime, bookings[i].endTime)
    requires !CoversSharingEndpoint(start, end, bookings[i].startTime, bookings[i].endTime)
    ensures HasConflict(bookings, space, start, end)
  {
    ClashCharacterization(bookings[i], space, start, end);
  }

  /** Only bookings of the requested space are considered: with none, there is no conflict. */
  lemma OtherSpacesIgnored(bookings: seq<Booking>, space: string, start: int, end: int)
    requires forall i :: 0 <= i < |bookings| ==> bookings[i].space != space
    ensures !HasConflict(bookings, space, start, end)
  {
  }

  /** Back-to-back intervals are never flagged, on either side. */
  lemma TouchingNeverClashes(b: Booking, space: string, start: int, end: int)
    requires !(end < start) && !(b.endTime < b.startTime)
    requires end == b.startTime || start == b.endTime
    ensures !Clashes(b, space, start, end)
  {
  }

  /** A candidate identical to a booking is not flagged by it. */
  lemma IdenticalNeverClashes(b: Booking)
    ensures !Clashes(b, b.space, b.startTime, b.endTime)
  {
  }

  /** A zero-length candidate [t, t] is flagged only by a booking strictly around t. */
  lemma PointCandidate(b: Booking, space: string, t: int)
    requires !(b.endTime < b.startTime)
    ensures Clashes(b, space, t, t) <==> b.space == space && b.startTime < t < b.endTime
  {
  }

  /**
   * The test is not symmetric: [9:00,10:00) is flagged against an existing
   * [9:00,11:00), but [9:00,11:00) is not flagged against an existing [9:00,10:00).
   */
  lemma ClashNotSymmetric()
    ensures var short := Booking(1, "Room A", 32400, 36000, "", "", Confirmed);
            var long := Booking(2, "Room A", 32400, 39600, "", "", Confirmed);
            && Clashes(long, "Room A", short.startTime, short.endTime)
            && !Clashes(short, "Room A", long.startTime, long.endTime)
  {
  }

  /** Appending a booking adds exactly its own clash to the test. */
  lemma {:induction false} HasConflictAppend(bookings: seq<Booking>, b: Booking, space: string, start: int, end: int)
    ensures HasConflict(bookings + [b], space, start, end) <==>
              HasConflict(bookings, space, start, end) || Clashes(b, space, start, end)
  {
    var all := bookings + [b];
    if HasConflict(all, space, start, end) {
      var i :| 0 <= i < |all| && Clashes(all[i], space, start, end);
      if i < |bookings| {
        assert all[i] == bookings[i];
      }
    }
    if HasConflict(bookings, space, start, end) {
      var i :| 0 <= i < |bookings| && Clashes(bookings[i], space, start, end);
      assert all[i] == bookings[i];
    }
    if Clashes(b, space, start, end) {
      assert all[|bookings|] == b;
    }
  }

  /** The test reads only spaces and intervals, so statuses and notes cannot change it. */
  lemma ScheduleDeterminesConflict(a: seq<Booking>, b: seq<Booking>, space: string, start: int, end: int)
    requires SameSchedule(a, b)
    ensures HasConflict(a, space, start, end) == HasConflict(b, space, start, end)
  {
    if HasConflict(a, space, start, end) {
      var i :| 0 <= i < |a| && Clashes(a[i], space, start, end);
      assert Clashes(b[i], space, start, end);
    }
    if HasConflict(b, space, start, end) {
      var i :| 0 <= i < |b| && Clashes(b[i], space, start, end);
      assert Clashes(a[i], space, start, end);
    }
  }
}
