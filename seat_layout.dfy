/**
 * The seat page of client/src/pages/SeatLayout.jsx: the selection rules of a seat
 * click, the reset when another show time is picked, the seat grid's ids and the
 * checks made before a booking request is sent. Server calls are parameters: the
 * occupied seats a fetch returns, or `None` when it fails.
 */
module SeatLayout {
  import opened Wrappers
  import opened JsText
  import opened Lists
  import opened Bookings

  /** A show time the page offers; `rows` and `seatsPerRow` may be missing. */
  datatype TimeSlot = TimeSlot(time: string, showId: ShowId, rows: Option<int>, seatsPerRow: Option<int>)

  datatype ClickOutcome = NeedTime | LimitReached | AlreadyBooked | Toggled

  /** What `bookTickets` does: refuse, or post the booking request. */
  datatype Checkout = LoginRequired | SelectionRequired | BookingRequest(showId: ShowId, seats: seq<SeatId>)

  const MAX_SEATS: nat := 5
  const ALPHABET: string := "ABCDEFGHIJKLMNOPQRSTUVWXYZ"

  /** The page state a seat click and a time pick change. */
  class SeatPicker {
    var selectedSeats: seq<SeatId>
    var occupiedSeats: seq<SeatId>
    var selectedTime: Option<TimeSlot>

    /** At most five seats are selected, none twice. */
    predicate Valid()
      reads this
    {
      |selectedSeats| <= MAX_SEATS && NoDuplicates(selectedSeats)
    }

    /** The page as it mounts: nothing selected, nothing occupied, no time. */
    constructor()
      ensures selectedSeats == [] && occupiedSeats == [] && selectedTime == None
      ensures Valid()
    {
      selectedSeats := [];
      occupiedSeats := [];
      selectedTime := None;
    }

    /**
     * `handleSeatClick`: without a time nothing happens; a sixth seat is refused before
     * the occupied check; an occupied seat is refused; otherwise the seat is toggled.
     */
    method HandleSeatClick(seatId: SeatId) returns (outcome: ClickOutcome)
      requires Valid()
      modifies this
      ensures Valid()
      ensures occupiedSeats == old(occupiedSeats) && selectedTime == old(selectedTime)
      ensures outcome == (if old(selectedTime).None? then NeedTime
                          else if seatId !in old(selectedSeats) && |old(selectedSeats)| >= MAX_SEATS then LimitReached
                          else if seatId in old(occupiedSeats) then AlreadyBooked
                          else Toggled)
      ensures outcome != Toggled ==> selectedSeats == old(selectedSeats)
      ensures outcome == Toggled ==> selectedSeats == Toggle(old(selectedSeats), seatId)
    {
      if selectedTime.None? {
        return NeedTime;
      }
      if seatId !in selectedSeats && |selectedSeats| > 4 {
        return LimitReached;
      }
      if seatId in occupiedSeats {
        return AlreadyBooked;
      }
      ToggleNoDuplicates(selectedSeats, seatId);
      if seatId in selectedSeats {
        RemoveAllContents(selectedSeats, seatId);
        assert |RemoveAll(selectedSeats, seatId)| <= |selectedSeats| by {
          assert |multiset(RemoveAll(selectedSeats, seatId))| <= |multiset(selectedSeats)|;
        }
      }
      selectedSeats := Toggle(selectedSeats, seatId);
      outcome := Toggled;
    }

    /**
     * A click on a time slot and the effect it triggers: picking another slot than the
     * current one clears the selection and loads that show's occupied seats (`fetched`,
     * `None` when the request fails); picking the current slot again changes nothing.
     */
    method SelectTime(slot: TimeSlot, fetched: Option<seq<SeatId>>)
      requires Valid()
      modifies this
      ensures Valid()
      ensures selectedTime == Some(slot)
      ensures old(selectedTime) == Some(slot) ==>
        selectedSeats == old(selectedSeats) && occupiedSeats == old(occupiedSeats)
      ensures old(selectedTime) != Some(slot) ==>
        selectedSeats == [] && occupiedSeats == fetched.GetOr(old(occupiedSeats))
    {
      if selectedTime == Some(slot) {
        return;
      }
      selectedTime := Some(slot);
      selectedSeats := [];
      if fetched.Some? {
        occupiedSeats := fetched.value;
      }
    }

    /** `bookTickets`: a user, a time and at least one seat are needed before the request goes out. */
    function BookTickets(signedIn: bool): (c: Checkout)
      reads this
      ensures c.BookingRequest? <==> signedIn && selectedTime.Some? && selectedSeats != []
      ensures c.BookingRequest? ==> c.showId == selectedTime.value.showId && c.seats == selectedSeats
      ensures !signedIn ==> c == LoginRequired
    {
      if !signedIn then LoginRequired
      else if selectedTime.None? || |selectedSeats| == 0 then SelectionRequired
      else BookingRequest(selectedTime.value.showId, selectedSeats)
    }
  }

  /** `x || fallback` for a number that may be missing: missing or 0 gives the fallback. */
  function OrDefault(x: Option<int>, fallback: int): (r: int)
    ensures x.Some? && x.value != 0 ==> r == x.value
    ensures x.None? || x.value == 0 ==> r == fallback
  {
    if x.Some? && x.value != 0 then x.value else fallback
  }

  /** `str.slice(0, end)` on a string of length `len`: a negative end counts from the back; the result is clamped. */
  function SliceEnd(len: nat, end: int): (k: nat)
    ensures k <= len
    ensures 0 <= end ==> k == if end < len then end else len
    ensures end < 0 ==> k == if len + end > 0 then len + end else 0
  {
    if end < 0 then (if len + end > 0 then len + end else 0)
    else if end < len then end
    else len
  }

  /** The row letters: the first `rows || 10` letters of the alphabet, with `slice`'s clamping. */
  function RowLabels(rows: Option<int>): (labels: seq<char>)
    ensures |labels| <= 26 && labels == ALPHABET[..|labels|]
    ensures 0 < OrDefault(rows, 10) <= 26 ==> |labels| == OrDefault(rows, 10)
  {
    ALPHABET[..SliceEnd(|ALPHABET|, OrDefault(rows, 10))]
  }

  /** `Array.from({ length: n })` with `n = seatsPerRow || 9`: a negative length gives no seats. */
  function SeatsPerRow(seatsPerRow: Option<int>): (n: nat)
    ensures OrDefault(seatsPerRow, 9) >= 0 ==> n == OrDefault(seatsPerRow, 9)
    ensures OrDefault(seatsPerRow, 9) < 0 ==> n == 0
  {
    var len := OrDefault(seatsPerRow, 9);
    if len < 0 then 0 else len
  }

  /** `${row}${i + 1}`. */
  function SeatId(row: char, i: nat): SeatId {
    [row] + NatToString(i + 1)
  }

  /** The seat ids of one row, numbered from 1. */
  function RowSeats(row: char, n: nat): (ids: seq<SeatId>)
    ensures |ids| == n
  {
    seq(n, i requires 0 <= i < n => SeatId(row, i))
  }

  /** All seat ids of the grid, row by row. */
  function Grid(labels: seq<char>, n: nat): (ids: seq<SeatId>)
    ensures |ids| == |labels| * n
  {
    if labels == [] then [] else RowSeats(labels[0], n) + Grid(labels[1..], n)
  }

  /** A seat id gives back its row letter and its number. */
  lemma SeatIdDecodes(row: char, i: nat)
    ensures SeatId(row, i)[0] == row
    ensures NumberOf(SeatId(row, i)[1..]) == Some(i + 1)
  {
    assert SeatId(row, i)[1..] == NatToString(i + 1);
    NumberOfNatToString(i + 1);
  }

  /** Different (row, number) positions have different ids. */
  lemma SeatIdInjective(r1: char, i1: nat, r2: char, i2: nat)
    ensures SeatId(r1, i1) == SeatId(r2, i2) ==> r1 == r2 && i1 == i2
  {
    if SeatId(r1, i1) == SeatId(r2, i2) {
      SeatIdDecodes(r1, i1);
      SeatIdDecodes(r2, i2);
    }
  }

  /** The grid is `labels[k]` followed by a number in 1..n, for every row and seat. */
  lemma {:induction false} GridContents(labels: seq<char>, n: nat, id: SeatId)
    ensures id in Grid(labels, n) <==> exists k, i :: 0 <= k < |labels| && 0 <= i < n && id == SeatId(labels[k], i)
  {
    if labels != [] {
      GridContents(labels[1..], n, id);
      if id in RowSeats(labels[0], n) {
        var i :| 0 <= i < n && RowSeats(labels[0], n)[i] == id;
        assert id == SeatId(labels[0], i);
      }
      if exists k, i :: 0 <= k < |labels| && 0 <= i < n && id == SeatId(labels[k], i) {
        var k, i :| 0 <= k < |labels| && 0 <= i < n && id == SeatId(labels[k], i);
        if k == 0 {
          assert RowSeats(labels[0], n)[i] == id;
        } else {
          assert labels[1..][k - 1] == labels[k];
        }
      }
    }
  }

  /** With distinct row letters no seat id appears twice in the grid. */
  lemma {:induction false} GridNoDuplicates(labels: seq<char>, n: nat)
    requires NoDuplicates(labels)
    ensures NoDuplicates(Grid(labels, n))
  {
    if labels != [] {
      var tail := labels[1..];
      assert NoDuplicates(tail) by {
        forall a, b | 0 <= a < b < |tail| ensures tail[a] != tail[b] {
          assert tail[a] == labels[a + 1] && tail[b] == labels[b + 1];
        }
      }
      GridNoDuplicates(tail, n);
      var row := RowSeats(labels[0], n);
      var rest := Grid(tail, n);
      forall a, b | 0 <= a < b < |row| ensures row[a] != row[b] {
        SeatIdInjective(labels[0], a, labels[0], b);
      }
      forall a, b | 0 <= a < |row| && 0 <= b < |rest| ensures row[a] != rest[b] {
        GridContents(tail, n, rest[b]);
        var k, i :| 0 <= k < |tail| && 0 <= i < n && rest[b] == SeatId(tail[k], i);
        SeatIdInjective(labels[0], a, tail[k], i);
        assert tail[k] == labels[k + 1];
      }
      var g := row + rest;
      forall a, b | 0 <= a < b < |g| ensures g[a] != g[b] {
        if b < |row| {
        } else if a < |row| {
          assert g[b] == rest[b - |row|];
        } else {
          assert g[a] == rest[a - |row|] && g[b] == rest[b - |row|];
        }
      }
    }
  }

  /** The rendered grid: `rows × seatsPerRow` distinct ids when both are in range. */
  lemma GridOfSlot(slot: TimeSlot)
    ensures var labels := RowLabels(slot.rows);
      var ids := Grid(labels, SeatsPerRow(slot.seatsPerRow));
      NoDuplicates(ids) && |ids| == |labels| * SeatsPerRow(slot.seatsPerRow)
  {
    var labels := RowLabels(slot.rows);
    forall a, b | 0 <= a < b < |labels| ensures labels[a] != labels[b] {
      assert labels[a] == ALPHABET[a] && labels[b] == ALPHABET[b];
    }
    GridNoDuplicates(labels, SeatsPerRow(slot.seatsPerRow));
  }
}
