// The space registry of main.go: `getSpaceID` (main.go:532-539), the name
// lookup by list position, and the per-space booking count of the spaces view
// (main.go:227-233).  Space names are not required to be distinct.

module Spaces {
  import opened Types

  /**
   * `getSpaceID`: the first position holding `name`, or -1 when no position does.
   */
  function SpaceIndex(spaces: seq<string>, name: string): (r: int)
    ensures -1 <= r < |spaces|
    ensures r == -1 <==> name !in spaces
    ensures 0 <= r ==> spaces[r] == name && name !in spaces[..r]
  {
    if |spaces| == 0 then -1
    else if spaces[0] == name then 0
    else
      var k := SpaceIndex(spaces[1..], name);
      assert name in spaces[1..] ==> name in spaces;
      assert 0 <= k ==> spaces[..k + 1] == [spaces[0]] + spaces[1..][..k];
      if k == -1 then -1 else k + 1
  }

  /** There is only one first occurrence. */
  lemma FirstOccurrenceUnique(spaces: seq<string>, name: string, i: int, j: int)
    requires 0 <= i < |spaces| && spaces[i] == name && name !in spaces[..i]
    requires 0 <= j < |spaces| && spaces[j] == name && name !in spaces[..j]
    ensures i == j
  {
  }

  /**
   * Appending a name (add-space) keeps every index `getSpaceID` returned
   * before.  A duplicate name keeps its old index, so the new entry is never
   * returned for it; only a new name is found at the new last position.
   */
  lemma AppendKeepsIndices(spaces: seq<string>, x: string, name: string)
    ensures SpaceIndex(spaces + [x], name) ==
              if name in spaces then SpaceIndex(spaces, name)
              else if name == x then |spaces|
              else -1
  {
    var all := spaces + [x];
    var r := SpaceIndex(all, name);
    assert all[..|spaces|] == spaces;
    if name in spaces {
      var k := SpaceIndex(spaces, name);
      assert all[..k] == spaces[..k];
      assert all[k] == name;
      FirstOccurrenceUnique(all, name, r, k);
    } else if name == x {
      assert all[|spaces|] == name;
      FirstOccurrenceUnique(all, name, r, |spaces|);
    } else {
      assert name !in all;
    }
  }

  /** The name lookup in the order a caller uses it: the name at `getSpaceID(name)` is `name`. */
  lemma IndexThenName(spaces: seq<string>, name: string)
    requires name in spaces
    ensures 0 <= SpaceIndex(spaces, name) < |spaces|
    ensures spaces[SpaceIndex(spaces, name)] == name
  {
  }

  /** The spaces of a booking list, in order. */
  function SpacesOf(bookings: seq<Booking>): (r: seq<string>)
    ensures |r| == |bookings|
    ensures forall i :: 0 <= i < |bookings| ==> r[i] == bookings[i].space
  {
    seq(|bookings|, i requires 0 <= i < |bookings| => bookings[i].space)
  }

  /** The per-space count: how many bookings, of any status, name this space. */
  function CountFor(bookings: seq<Booking>, name: string): (n: nat)
    ensures n <= |bookings|
  {
    if |bookings| == 0 then 0
    else
      CountFor(bookings[..|bookings| - 1], name)
        + (if bookings[|bookings| - 1].space == name then 1 else 0)
  }

  /** The count is the multiplicity of the name among the bookings' spaces. */
  lemma {:induction false} CountIsMultiplicity(bookings: seq<Booking>, name: string)
    ensures CountFor(bookings, name) == multiset(SpacesOf(bookings))[name]
  {
    if |bookings| > 0 {
      var init := bookings[..|bookings| - 1];
      var last := bookings[|bookings| - 1];
      CountIsMultiplicity(init, name);
      assert SpacesOf(bookings) == SpacesOf(init) + [last.space];
    }
  }

  /** The count is positive exactly when some booking names the space. */
  lemma {:induction false} CountPositive(bookings: seq<Booking>, name: string)
    ensures CountFor(bookings, name) > 0 <==> exists i :: 0 <= i < |bookings| && bookings[i].space == name
  {
    if |bookings| > 0 {
      var init := bookings[..|bookings| - 1];
      CountPositive(init, name);
      if exists i :: 0 <= i < |init| && init[i].space == name {
        var i :| 0 <= i < |init| && init[i].space == name;
        assert bookings[i].space == name;
      }
      if exists i :: 0 <= i < |bookings| && bookings[i].space == name {
        var i :| 0 <= i < |bookings| && bookings[i].space == name;
        if i < |init| {
          assert init[i].space == name;
        }
      }
    }
  }

  /** Counting distributes over concatenation. */
  lemma {:induction false} CountConcat(a: seq<Booking>, b: seq<Booking>, name: string)
    ensures CountFor(a + b, name) == CountFor(a, name) + CountFor(b, name)
  {
    if |b| > 0 {
      var binit := b[..|b| - 1];
      assert (a + b)[..|a + b| - 1] == a + binit;
      assert (a + b)[|a + b| - 1] == b[|b| - 1];
      CountConcat(a, binit, name);
    } else {
      assert a + b == a;
    }
  }

  /** The count reads only spaces: times, statuses and notes cannot change it. */
  lemma ScheduleDeterminesCount(a: seq<Booking>, b: seq<Booking>, name: string)
    requires SpacesOf(a) == SpacesOf(b)
    ensures CountFor(a, name) == CountFor(b, name)
  {
    CountIsMultiplicity(a, name);
    CountIsMultiplicity(b, name);
  }
}
