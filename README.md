# Booking engine of skedda-goclone, modelled in Dafny

This project models the in-memory booking engine of the desktop booking
application in `main.go`. The engine is a `BookingSystem` that holds two slices
and updates them in place:

* `spaces` — space names. A space's identifier is its position in the list.
* `bookings` — booking rows. Each row has an id, a space name, start and end
  times, a user, notes and a status string.

The model covers two groups of operations.

* **Read-only queries.** The conflict test used before a booking is created,
  the "does this day have a booking" test that highlights calendar days, the
  name-to-position lookup, and the per-space booking count.
* **Mutations.** Create, cancel, edit-notes, add-space and load. Each one takes
  effect only after its database call succeeds.

Timestamps are integers (seconds) in one fixed time reference. A day is the
instant of its midnight `d`, and the next midnight is `d + DAY` with
`DAY = 86400`. Calendar days start at the multiples of `DAY`. Each database
call is just its outcome: a boolean, plus the id the database assigns on
insert. A load query is the list of its per-row scan results.

Files:

* `types.dfy` (module `Types`): the `Booking` entity, the status strings, the
  default spaces, and the two predicates `WellFormed` and `SameSchedule`.
* `conflict.dfy` (module `Conflict`): the three-clause conflict test. It is
  compared with the half-open overlap reference `s1 < e2 && s2 < e1`.
* `calendar.dfy` (module `Calendar`): the day query. It is compared with the
  half-open day `[d, d + DAY)`.
* `spaces.dfy` (module `Spaces`): the first-position lookup and the per-space count.
* `rows.dfy` (module `Rows`): stored rows, which refer to a space by position,
  and the load that turns a position back into a name.
* `scheduler.dfy` (module `Scheduler`): the `BookingSystem` class. Each query
  is a loop verified against its specification function. Each mutation states
  the whole new state. The module also holds lemmas about how mutations and
  queries interact.

## What the source does at the boundaries

These facts are all proved.

* Conflict test. For a candidate that passed validation and a stored booking
  that also did, the test flags exactly the same-space overlaps, except one
  kind: a candidate that covers the booking and shares an endpoint with it is
  not flagged. This includes an identical interval. Back-to-back intervals are
  never flagged.
* The conflict test is not symmetric.
* The same slot can be booked twice.
* Status is never read, so the queries do not skip cancelled rows. A
  cancelled booking still blocks conflicting candidates, still marks its day
  and is still counted.
* Validation rejects only `end < start`, so a zero-length booking
  (`end == start`) is accepted. A zero-length candidate `[t, t]` is flagged only by a booking that strictly
  contains `t`.
* The day query uses strict comparisons on both sides. A booking that starts
  exactly at midnight is counted on no day.
* Space names may repeat: add-space accepts a duplicate. The lookup returns
  the first position. Appending a name never changes a position the lookup
  returned before.
* A booking created with a space name that is not registered (no space
  selected) is stored with position `-1`. The next load cannot index that
  position.
* A space added during a session does not survive a restart. `AddSpace`
  writes the `spaces` table, but start-up always begins from the four default
  spaces and never reads that table. A booking saved in the first added
  space, if its name is new, is stored at position 4, and the start-up load
  cannot index that position.
* A space's id is its position in the list.
* Cancelling a row that is already cancelled succeeds again.

## Model

| member | source | states |
|---|---|---|
| `Conflict.Clashes` | main.go:522-525 | the per-booking condition: same space, and the candidate's start strictly inside the booking, or its end strictly inside, or the candidate strictly around it; status is not read |
| `Conflict.HasConflict` | main.go:520-530 | the conflict test: some booking in the list clashes with the candidate |
| `Conflict.ClashCharacterization` | main.go:520-530 | for a validated candidate and booking, the test flags a booking iff it is in the same space, overlaps half-open, and is not covered by the candidate with a shared endpoint |
| `Conflict.ConflictSound` | main.go:522-525 | a reported conflict implies some same-space booking overlapping the candidate in the half-open sense |
| `Conflict.ConflictCompleteExceptCovers` | main.go:522-525 | every same-space half-open overlap other than a cover that shares an endpoint is reported |
| `Conflict.OtherSpacesIgnored` | main.go:520-530 | with no booking of the requested space, no conflict is reported |
| `Conflict.TouchingNeverClashes` | main.go:523-525 | a candidate that ends where a booking starts, or starts where it ends, is not flagged |
| `Conflict.IdenticalNeverClashes` | main.go:523-525 | a candidate identical to a booking is not flagged by it |
| `Conflict.PointCandidate` | main.go:523-525 | a zero-length candidate is flagged only by a same-space booking strictly around it |
| `Conflict.ClashNotSymmetric` | main.go:523-525 | a concrete pair of intervals flagged one way round and not the other |
| `Conflict.HasConflictAppend` | main.go:521-529 | appending a booking adds exactly that booking's clash to the test |
| `Conflict.ScheduleDeterminesConflict` | main.go:522-525 | the test depends only on spaces and intervals, not on status, notes, user or id |
| `Calendar.StartsOnDay` | main.go:441 | a booking starts strictly after the day's midnight and strictly before the next one |
| `Calendar.HasBookingOnDay` | main.go:436-446 | the day query: some booking, of any space and status, starts on the day |
| `Calendar.OnDayIsHalfOpenDayButMidnight` | main.go:436-446 | a day has a booking iff some start lies in the half-open day and is not its midnight |
| `Calendar.HasBookingOnDayAppend` | main.go:440-445 | appending a booking adds exactly that booking's start to the day query |
| `Calendar.MidnightStartOnNoDay` | main.go:437-441 | a booking starting at a calendar midnight changes the answer for no calendar day |
| `Calendar.OtherStartOnItsDay` | main.go:437-441 | any other start is on exactly one calendar day, the one beginning at the preceding midnight |
| `Calendar.ScheduleDeterminesDay` | main.go:440-441 | two booking lists with the same start times row by row give the same day answer, whatever their spaces, end times, statuses and notes |
| `Spaces.SpaceIndex` | main.go:532-539 | the lookup returns the first position holding the name, and -1 iff the name is absent |
| `Spaces.AppendKeepsIndices` | main.go:256 | after appending a space, every registered name keeps its position, a duplicate is never found at the new position, and only a new name is found there |
| `Spaces.IndexThenName` | main.go:532-539 | for a registered name, the name at the looked-up position is that name |
| `Spaces.CountFor` | main.go:227-233 | the per-space count never exceeds the number of bookings |
| `Spaces.CountIsMultiplicity` | main.go:227-233 | the per-space count is the number of bookings whose space is that name, of any status |
| `Spaces.CountPositive` | main.go:229-233 | the count is positive iff some booking names the space |
| `Spaces.CountConcat` | main.go:229-233 | counting distributes over concatenation of booking lists |
| `Spaces.ScheduleDeterminesCount` | main.go:229-231 | two booking lists with the same spaces in the same order give the same count, whatever their times, statuses and notes |
| `Rows.RowOf` | main.go:494-497 | a stored row keeps every field of the booking and stores a registered space as a position holding that name, an unregistered one as -1 |
| `Rows.ToBooking` | main.go:89-96 | a loaded row becomes a booking with the name at its stored position and every other field kept |
| `Rows.Loaded` | main.go:87-98 | a load yields at most one booking per row, each in a registered space |
| `Rows.ReloadRoundTrip` | main.go:88-97 | storing bookings in registered spaces and loading the rows back in order gives the same bookings |
| `Rows.UnregisteredSpaceNotReloadable` | main.go:497 | a booking in an unregistered space is stored at position -1, which a load cannot index |
| `Rows.AddedSpaceNotReloadableAtStart` | main.go:96 | a booking saved in a space whose name is new, added to the four defaults, is stored at position 4, which the start-up load over the defaults cannot index |
| `Scheduler.BookingSystem.constructor` | main.go:63-71 | starts with the four default spaces and the bookings of the initial load, or none if the query fails |
| `Scheduler.BookingSystem.LoadBookings` | main.go:74-99 | a query error keeps the list; otherwise the list becomes the loaded bookings; spaces unchanged |
| `Scheduler.BookingSystem.HasConflictingBooking` | main.go:520-530 | the loop returns exactly the conflict test over the current bookings |
| `Scheduler.BookingSystem.HasBookingsOnDate` | main.go:436-446 | the loop returns exactly the day query for the given midnight |
| `Scheduler.BookingSystem.GetSpaceId` | main.go:532-539 | the loop returns the first position of the name, or -1 |
| `Scheduler.BookingSystem.BookingCount` | main.go:227-233 | the loop returns the count of bookings naming the space at the given position |
| `Scheduler.BookingSystem.CreateBooking` | main.go:482-513 | rejects `end < start`, then a reported conflict, with no database call and no change; otherwise sends the row with the looked-up position; on insert failure nothing changes; on success exactly one Confirmed booking is appended, and when the space is registered a reload of the sent row gives it back |
| `Scheduler.BookingSystem.CancelBooking` | main.go:338-351 | out-of-range rows are ignored; on database failure nothing changes; otherwise only that row's status becomes Cancelled |
| `Scheduler.BookingSystem.EditNotes` | main.go:366-379 | out-of-range rows are ignored; on database failure nothing changes; otherwise only that row's notes are replaced |
| `Scheduler.BookingSystem.AddSpace` | main.go:247-258 | an empty name is ignored; on database failure nothing changes; otherwise the name is appended, duplicates included; bookings unchanged |
| `Scheduler.Admissible` | main.go:483-491 | create's validation: the end is not before the start and no conflict is reported |
| `Scheduler.IdenticalRebookingAdmitted` | main.go:488-513 | a just-created booking never makes a second booking of the same space and interval inadmissible |
| `Scheduler.CancelledStillCounts` | main.go:350 | cancelling a row leaves the conflict test, the day query and the count unchanged |
| `Scheduler.CreateCountsOnce` | main.go:505 | appending a booking raises its own space's count by one and leaves the other counts unchanged |

## Left out

- The Fyne user interface: toolbar, tabs, calendar grid, tables, dialogs and popups (main.go:101-434, main.go:448-463). It is presentation only.
- The dialog flags `submitted` and `yes`. The methods model the path where the user submits or confirms.
- The status-bar goroutine (main.go:123-128). It exists only for display.
- SQL text, `sql.Open`, table creation and its `log.Fatal` (main.go:36-61). Every database call is a success or failure parameter.
- The load query's `end_time >= now` filter and its `ORDER BY start_time`. The rows a query returns are an input, so `LoadBookings` does not filter or sort.
- The search reload (main.go:391-424). It converts rows to bookings the same way `LoadBookings` does, so it is `LoadBookings` applied to that query's rows. Its `LIKE` filter is SQL and is not modelled.
- `"HH:MM"` parsing and date formatting, with their error dialogs (main.go:467-480). This is a library call, so `CreateBooking` takes timestamps that are already parsed.
- Time zones and the calendar arithmetic of `time.Date` and `AddDate` (main.go:437-438). `HasBookingsOnDate` takes the midnight instant and treats every day as `DAY` seconds long. Days of 23 or 25 hours are not modelled. Create parses its times with no zone (main.go:470, main.go:476), so they are UTC instants, while the day boundaries use the local zone (main.go:437). The single time reference with days at the multiples of `DAY` therefore matches the source only when the local zone is UTC.
- Scheduler.BookingSystem.CancelBooking: the source copies the booking when the row is selected and writes to the row index when the user confirms. The model does both in one step. A reload in between is not modelled; it could make the index point at another booking or past the end.
- Scheduler.BookingSystem.EditNotes: the same single-step simplification as `CancelBooking`.
- Scheduler.BookingSystem.constructor: its precondition excludes stored rows whose space position is outside the four default spaces. The source panics on such rows at start-up (main.go:96). This includes rows saved in a space added in an earlier session, because start-up never reloads the `spaces` table (main.go:63-70). `Rows.AddedSpaceNotReloadableAtStart` proves that such rows arise.
- Scheduler.BookingSystem.LoadBookings: a stored space position outside the space list makes the source panic. The model turns that into a precondition rather than modelling a crash.
- The error that `LastInsertId` can return, which the source ignores, and the 64-bit width of ids. The assigned id is the parameter `newId`.
- `PriorityLevel` and everything else in `internal/` and `cmd/server/`. These are HTTP and GORM wrappers and plain declarations. No code in `main.go` consults priority.
