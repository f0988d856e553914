/**
 * The values of the seat-hold / payment lifecycle and the pure parts of its three
 * operations: the availability check and the seat writes of `createBooking`, the seat
 * deletes of the delayed release, and the writes of the payment webhook.
 * The class that holds the state and performs the operations is `Ledger.Ledger`.
 */
module Bookings {
  import opened Wrappers

  type UserId = string
  type ShowId = string
  type SeatId = string
  type BookingId = nat

  datatype BookingStatus = Pending | Paid | Expired

  datatype SeatStatus = Reserved | Booked

  /** A show document: its unit price and the seat -> holder map `occupiedSeats`. */
  datatype Show = Show(showPrice: int, occupiedSeats: map<SeatId, UserId>)

  /** A booking record. `bookedSeats` is the snapshot of the selected seats. */
  datatype Booking = Booking(
    user: UserId,
    show: ShowId,
    amount: int,
    bookedSeats: seq<SeatId>,
    isPaid: bool,
    status: BookingStatus,
    paymentLink: string,
    createdAt: int)

  /** A row of the Seat table. */
  datatype SeatRow = SeatRow(bookingId: BookingId, seat: SeatId, status: SeatStatus)

  /** `occupiedSeats[seat]` is truthy: the seat is a key whose holder is not the empty string. */
  predicate IsHeld(occupied: map<SeatId, UserId>, seat: SeatId) {
    seat in occupied && occupied[seat] != ""
  }

  /**
   * `selected.some(seat => occupied[seat])`, where `occupied` may be `undefined`
   * (`None`). `Some(b)` is the value of the call; `None` means it throws, which
   * happens when the callback indexes `undefined`, i.e. for the first seat.
   */
  function SomeSeatHeld(occupied: Option<map<SeatId, UserId>>, selected: seq<SeatId>): (r: Option<bool>)
    ensures occupied.Some? ==>
      r == Some(exists i :: 0 <= i < |selected| && IsHeld(occupied.value, selected[i]))
    ensures occupied.None? ==> r == if selected == [] then Some(false) else None
  {
    if selected == [] then Some(false)
    else if occupied.None? then None
    else if IsHeld(occupied.value, selected[0]) then Some(true)
    else
      var rest := SomeSeatHeld(occupied, selected[1..]);
      assert forall i :: 1 <= i < |selected| ==> selected[i] == selected[1..][i - 1];
      rest
  }

  /**
   * checkSeatsAvailability, with `occupied` the map the check reads: a missing show
   * is unavailable, a throwing check is caught and reported unavailable.
   */
  function AvailabilityReading(shows: map<ShowId, Show>, showId: ShowId, selected: seq<SeatId>,
                               occupied: Option<map<SeatId, UserId>>): bool
  {
    if showId !in shows then false
    else
      match SomeSeatHeld(occupied, selected)
      case None => false
      case Some(taken) => !taken
  }

  /**
   * checkSeatsAvailability as intended: it reads the fetched show's `occupiedSeats`.
   * A selection is available iff the show exists and none of its seats is held.
   */
  function CheckSeatsAvailability(shows: map<ShowId, Show>, showId: ShowId, selected: seq<SeatId>): (available: bool)
    ensures available <==>
      showId in shows && forall i :: 0 <= i < |selected| ==> !IsHeld(shows[showId].occupiedSeats, selected[i])
  {
    AvailabilityReading(shows, showId, selected,
                        if showId in shows then Some(shows[showId].occupiedSeats) else None)
  }

  /**
   * checkSeatsAvailability as written: it reads `Show.occupiedSeats`, a property of the
   * model class rather than of the fetched document, which is `undefined`, so only an
   * empty selection of an existing show is ever available.
   */
  function CheckSeatsAvailabilityAsWritten(shows: map<ShowId, Show>, showId: ShowId, selected: seq<SeatId>): (r: bool)
    ensures r <==> showId in shows && selected == []
    ensures r ==> CheckSeatsAvailability(shows, showId, selected)
  {
    AvailabilityReading(shows, showId, selected, None)
  }

  /** A free seat of an existing show: intended available, as written unavailable. */
  lemma AsWrittenRejectsAFreeSeat()
    ensures var shows := map["show-1" := Show(150, map[])];
      CheckSeatsAvailability(shows, "show-1", ["A1"]) && !CheckSeatsAvailabilityAsWritten(shows, "show-1", ["A1"])
  {
    var shows := map["show-1" := Show(150, map[])];
    assert !IsHeld(shows["show-1"].occupiedSeats, "A1");
  }

  /** Every holder in the map is a non-empty user id. */
  predicate HoldersNonEmpty(occupied: map<SeatId, UserId>) {
    forall s :: s in occupied ==> occupied[s] != ""
  }

  /** When every holder is non-empty, a selection is available iff none of its seats is a key. */
  lemma AvailableIffNoSeatIsAKey(shows: map<ShowId, Show>, showId: ShowId, selected: seq<SeatId>)
    requires showId in shows && HoldersNonEmpty(shows[showId].occupiedSeats)
    ensures CheckSeatsAvailability(shows, showId, selected) <==>
      forall i :: 0 <= i < |selected| ==> selected[i] !in shows[showId].occupiedSeats
  {
  }

  /**
   * `seats.forEach(seat => occupied[seat] = user)`: every written seat is held by
   * `user`, every other key keeps its holder, nothing else is added.
   */
  function AssignSeats(occupied: map<SeatId, UserId>, seats: seq<SeatId>, user: UserId): (m: map<SeatId, UserId>)
    ensures m.Keys == occupied.Keys + set s | s in seats
    ensures forall s :: s in m ==> m[s] == if s in seats then user else occupied[s]
  {
    if seats == [] then occupied
    else
      var init := seats[..|seats| - 1];
      assert seats == init + [seats[|seats| - 1]];
      AssignSeats(occupied, init, user)[seats[|seats| - 1] := user]
  }

  /**
   * `seats.forEach(seat => delete occupied[seat])`: every listed seat goes whoever
   * holds it, every other key keeps its holder.
   */
  function DropSeats(occupied: map<SeatId, UserId>, seats: seq<SeatId>): (m: map<SeatId, UserId>)
    ensures m.Keys == occupied.Keys - set s | s in seats
    ensures forall s :: s in m ==> m[s] == occupied[s]
  {
    if seats == [] then occupied
    else
      var init := seats[..|seats| - 1];
      assert seats == init + [seats[|seats| - 1]];
      DropSeats(occupied, init) - {seats[|seats| - 1]}
  }

  /** The loop of `createBooking` that writes the holder of every selected seat. */
  method WriteSeats(occupied: map<SeatId, UserId>, seats: seq<SeatId>, user: UserId) returns (m: map<SeatId, UserId>)
    ensures m == AssignSeats(occupied, seats, user)
  {
    m := occupied;
    var i := 0;
    while i < |seats|
      invariant 0 <= i <= |seats|
      invariant m == AssignSeats(occupied, seats[..i], user)
    {
      assert seats[..i + 1][..i] == seats[..i];
      m := m[seats[i] := user];
      i := i + 1;
    }
    assert seats[..i] == seats;
  }

  /** The loop of the release step that deletes every booked seat. */
  method DeleteSeats(occupied: map<SeatId, UserId>, seats: seq<SeatId>) returns (m: map<SeatId, UserId>)
    ensures m == DropSeats(occupied, seats)
  {
    m := occupied;
    var i := 0;
    while i < |seats|
      invariant 0 <= i <= |seats|
      invariant m == DropSeats(occupied, seats[..i])
    {
      assert seats[..i + 1][..i] == seats[..i];
      m := m - {seats[i]};
      i := i + 1;
    }
    assert seats[..i] == seats;
  }

  /** Once a non-empty user holds a non-empty selection, the same selection is no longer available. */
  lemma ReservedSelectionIsUnavailable(shows: map<ShowId, Show>, showId: ShowId, selected: seq<SeatId>, user: UserId)
    requires showId in shows && selected != [] && user != ""
    ensures var show := shows[showId];
      !CheckSeatsAvailability(shows[showId := show.(occupiedSeats := AssignSeats(show.occupiedSeats, selected, user))],
                              showId, selected)
  {
    var show := shows[showId];
    var after := shows[showId := show.(occupiedSeats := AssignSeats(show.occupiedSeats, selected, user))];
    assert IsHeld(after[showId].occupiedSeats, selected[0]);
  }

  /** After a release none of the released seats is held, so each can be booked again. */
  lemma ReleasedSeatsAreFree(occupied: map<SeatId, UserId>, seats: seq<SeatId>, s: SeatId)
    requires s in seats
    ensures !IsHeld(DropSeats(occupied, seats), s)
  {
  }

  /** Releasing a reservation of seats that were not keys before gives the old map back. */
  lemma ReleaseUndoesReservation(occupied: map<SeatId, UserId>, seats: seq<SeatId>, user: UserId)
    requires forall i :: 0 <= i < |seats| ==> seats[i] !in occupied
    ensures DropSeats(AssignSeats(occupied, seats, user), seats) == occupied
  {
    var after := DropSeats(AssignSeats(occupied, seats, user), seats);
    assert after.Keys == occupied.Keys;
  }

  /** The booking record after a confirmed payment. */
  function MarkPaid(b: Booking): (p: Booking)
    ensures p.isPaid && p.status == Paid && p.paymentLink == ""
    ensures p.(isPaid := b.isPaid, status := b.status, paymentLink := b.paymentLink) == b
  {
    b.(isPaid := true, status := Paid, paymentLink := "")
  }

  /**
   * `seat.updateMany({where: {bookingId: id}, data: {status: 'BOOKED'}})`: the rows of
   * booking `id` become BOOKED, every other row is unchanged, no row is added or removed.
   */
  function MarkSeatsBooked(rows: map<nat, SeatRow>, id: BookingId): (r: map<nat, SeatRow>)
    ensures r.Keys == rows.Keys
    ensures forall k :: k in r ==> r[k].bookingId == rows[k].bookingId && r[k].seat == rows[k].seat
    ensures forall k :: k in r ==> r[k].status == if rows[k].bookingId == id then Booked else rows[k].status
  {
    map k | k in rows :: if rows[k].bookingId == id then rows[k].(status := Booked) else rows[k]
  }

  /** Confirming a payment twice writes the same values as confirming it once. */
  lemma ConfirmTwiceIsConfirmOnce(b: Booking, rows: map<nat, SeatRow>, id: BookingId)
    ensures MarkPaid(MarkPaid(b)) == MarkPaid(b)
    ensures MarkSeatsBooked(MarkSeatsBooked(rows, id), id) == MarkSeatsBooked(rows, id)
  {
    var once := MarkSeatsBooked(rows, id);
    var twice := MarkSeatsBooked(once, id);
    forall k | k in twice ensures twice[k] == once[k] {
    }
  }

  /**
   * The states the three operations can reach from a store without EXPIRED bookings:
   * no booking is EXPIRED and `isPaid` agrees with status PAID.
   */
  ghost predicate Consistent(bookings: map<BookingId, Booking>) {
    forall id :: id in bookings ==>
      bookings[id].status != Expired && (bookings[id].isPaid <==> bookings[id].status == Paid)
  }
}
