// The boundary between the in-memory bookings and the `bookings` table:
// a stored row refers to its space by position (`space_id`), written with
// `getSpaceID` on create (main.go:494-497) and turned back into a name with
// `bs.spaces[spaceID]` on load (main.go:88-98).  The SQL itself is not modelled:
// a query is its outcome, the list of per-row scan results.

module Rows {
  import opened Types
  import opened Spaces

  /** A row of the `bookings` table as a scan returns it (main.go:91). */
  datatype Row = Row(
    id: int,
    spaceId: int,
    startTime: int,
    endTime: int,
    user: string,
    notes: string,
    status: string)

  /** The result of scanning one row: the row, or a scan error. */
  datatype Scan = ScanFailed | Scanned(row: Row)

  /** The outcome of the load query: an error, or the rows it returned, in order. */
  datatype Query = QueryFailed | Returned(scans: seq<Scan>)

  /** The row that stores booking b: its space as the position `getSpaceID` gives. */
  function RowOf(spaces: seq<string>, b: Booking): (r: Row)
    ensures r.id == b.id && r.startTime == b.startTime && r.endTime == b.endTime
    ensures r.user == b.user && r.notes == b.notes && r.status == b.status
    ensures b.space in spaces ==> 0 <= r.spaceId < |spaces| && spaces[r.spaceId] == b.space
    ensures b.space !in spaces ==> r.spaceId == -1
  {
    Row(b.id, SpaceIndex(spaces, b.space), b.startTime, b.endTime, b.user, b.notes, b.status)
  }

  /** The load of main.go:96 indexes `spaces` with the stored position; outside it, Go panics. */
  predicate InRange(spaces: seq<string>, r: Row)
  {
    0 <= r.spaceId < |spaces|
  }

  predicate AllInRange(spaces: seq<string>, scans: seq<Scan>)
  {
    forall i :: 0 <= i < |scans| && scans[i].Scanned? ==> InRange(spaces, scans[i].row)
  }

  /** The booking one scanned row becomes: the stored position replaced by the name there. */
  function ToBooking(spaces: seq<string>, r: Row): (b: Booking)
    requires InRange(spaces, r)
    ensures b.space in spaces
    ensures b.id == r.id && b.startTime == r.startTime && b.endTime == r.endTime
    ensures b.user == r.user && b.notes == r.notes && b.status == r.status
  {
    Booking(r.id, spaces[r.spaceId], r.startTime, r.endTime, r.user, r.notes, r.status)
  }

  /**
   * The bookings a successful load produces: one per scanned row, in row
   * order, each the ToBooking of its row; rows whose scan failed are skipped.
   */
  function Loaded(spaces: seq<string>, scans: seq<Scan>): (bs: seq<Booking>)
    requires AllInRange(spaces, scans)
    ensures |bs| <= |scans|
    ensures forall i :: 0 <= i < |bs| ==> bs[i].space in spaces
  {
    if |scans| == 0 then []
    else
      var init := Loaded(spaces, scans[..|scans| - 1]);
      match scans[|scans| - 1]
      case ScanFailed => init
      case Scanned(r) => init + [ToBooking(spaces, r)]
  }

  /** The rows that store a booking list, all scanned successfully. */
  function Saved(spaces: seq<string>, bookings: seq<Booking>): (scans: seq<Scan>)
    ensures |scans| == |bookings|
    ensures forall i :: 0 <= i < |bookings| ==> scans[i] == Scanned(RowOf(spaces, bookings[i]))
  {
    seq(|bookings|, i requires 0 <= i < |bookings| => Scanned(RowOf(spaces, bookings[i])))
  }

  /**
   * Round trip: storing bookings whose spaces are all registered and loading
   * the rows back, in the same order, yields the same bookings.  `getSpaceID`
   * followed by `spaces[...]` is the identity on registered names, duplicates
   * included.
   */
  lemma {:induction false} ReloadRoundTrip(spaces: seq<string>, bookings: seq<Booking>)
    requires forall i :: 0 <= i < |bookings| ==> bookings[i].space in spaces
    ensures AllInRange(spaces, Saved(spaces, bookings))
    ensures Loaded(spaces, Saved(spaces, bookings)) == bookings
  {
    var scans := Saved(spaces, bookings);
    if |bookings| > 0 {
      var init := bookings[..|bookings| - 1];
      ReloadRoundTrip(spaces, init);
      assert scans[..|scans| - 1] == Saved(spaces, init);
      assert ToBooking(spaces, RowOf(spaces, bookings[|bookings| - 1])) == bookings[|bookings| - 1];
      assert bookings == init + [bookings[|bookings| - 1]];
    }
  }

  /**
   * The other direction fails for a name that is not registered (a create with
   * no space selected): its row stores position -1, which the next load cannot index.
   */
  lemma UnregisteredSpaceNotReloadable(spaces: seq<string>, b: Booking)
    requires b.space !in spaces
    ensures RowOf(spaces, b).spaceId == -1 && !InRange(spaces, RowOf(spaces, b))
  {
  }

  /**
   * A space added in one session does not survive a restart: the start-up
   * load uses the four default spaces, so a booking saved in an added space
   * whose name is new (position 4) names a position the start-up load cannot
   * index.
   */
  lemma AddedSpaceNotReloadableAtStart(x: string, b: Booking)
    requires x !in DefaultSpaces && b.space == x
    ensures RowOf(DefaultSpaces + [x], b).spaceId == |DefaultSpaces|
    ensures !InRange(DefaultSpaces, RowOf(DefaultSpaces + [x], b))
  {
    AppendKeepsIndices(DefaultSpaces, x, x);
  }
}
