/**
 * The booking store and the operations that change it: `createBooking`
 * (server/controllers/bookingController.js), the delayed release of an unpaid
 * booking (server/inngest/index.js) and the `checkout.session.completed` branch of
 * the payment webhook (server/controllers/stripeWebhooks.js). The show documents'
 * `occupiedSeats`, the booking records and the Seat rows live in one object here.
 */
module Ledger {
  import opened Wrappers
  import opened Bookings

  /** The JSON reply of `createBooking`. */
  datatype CreateReply = CreateReply(success: bool, message: string)

  /** How the release step ended; `Crashed` is a step that threw on a missing document. */
  datatype ReleaseOutcome = AlreadyPaid | Released | Crashed

  /** A payment-provider event whose signature has been checked by the caller. */
  datatype StripeEvent = StripeEvent(eventType: string, bookingId: BookingId, paymentIntent: Option<string>)

  /** The webhook's HTTP status and the two requests it may issue. */
  datatype WebhookReply = WebhookReply(httpStatus: nat, refundRequested: bool, confirmationSent: bool)

  const HOLD_WINDOW_MS: int := 10 * 60 * 1000
  const CHECKOUT_COMPLETED: string := "checkout.session.completed"
  const SEATS_UNAVAILABLE: string := "Selected Seats are not available."
  const BOOKED: string := "Booked successfully"

  /** The release step sleeps until ten minutes after it starts. */
  function ReleaseWakeTime(now: int): (wake: int)
    ensures wake - now == 600000
  {
    now + HOLD_WINDOW_MS
  }

  /** Every seat of a stored booking whose show exists is held in that show by the booking's user. */
  ghost predicate SeatsHeldByBookers(shows: map<ShowId, Show>, bookings: map<BookingId, Booking>) {
    forall id, s :: id in bookings && bookings[id].show in shows && s in bookings[id].bookedSeats ==>
      s in shows[bookings[id].show].occupiedSeats &&
      shows[bookings[id].show].occupiedSeats[s] == bookings[id].user
  }

  /** Two bookings of one show share no seat. */
  ghost predicate BookingsDisjoint(bookings: map<BookingId, Booking>) {
    forall id1, id2, s ::
      (id1 in bookings && id2 in bookings && id1 != id2 &&
       bookings[id1].show == bookings[id2].show && s in bookings[id1].bookedSeats) ==>
      s !in bookings[id2].bookedSeats
  }

  /**
   * No seat is allocated twice: every holder is a non-empty user id, every seat of a
   * stored booking (pending or paid) is held in its show by the booking's user, and two
   * bookings of one show share no seat.
   */
  ghost predicate SeatsAllocated(shows: map<ShowId, Show>, bookings: map<BookingId, Booking>) {
    (forall sh :: sh in shows ==> HoldersNonEmpty(shows[sh].occupiedSeats)) &&
    SeatsHeldByBookers(shows, bookings) && BookingsDisjoint(bookings)
  }

  /** Once allocated, a seat of any stored booking cannot be selected by another booking. */
  lemma AllocatedSeatIsUnavailable(shows: map<ShowId, Show>, bookings: map<BookingId, Booking>, id: BookingId,
                                   selected: seq<SeatId>, k: nat)
    requires SeatsAllocated(shows, bookings) && id in bookings && bookings[id].show in shows
    requires k < |selected| && selected[k] in bookings[id].bookedSeats
    ensures !CheckSeatsAvailability(shows, bookings[id].show, selected)
  {
    assert IsHeld(shows[bookings[id].show].occupiedSeats, selected[k]);
  }

  /** No seat of an available selection is a key of the show's map. */
  lemma AvailableSeatsAreFree(shows: map<ShowId, Show>, showId: ShowId, selected: seq<SeatId>)
    requires showId in shows && HoldersNonEmpty(shows[showId].occupiedSeats)
    requires CheckSeatsAvailability(shows, showId, selected)
    ensures forall s :: s in selected ==> s !in shows[showId].occupiedSeats
  {
    forall s | s in selected ensures s !in shows[showId].occupiedSeats {
      var i :| 0 <= i < |selected| && selected[i] == s;
      assert !IsHeld(shows[showId].occupiedSeats, selected[i]);
    }
  }

  /** After the create, the new booking's seats and every older booking's seats are held by their users. */
  lemma CreateKeepsHeld(shows: map<ShowId, Show>, bookings: map<BookingId, Booking>, id: BookingId, b: Booking)
    requires SeatsHeldByBookers(shows, bookings) && b.show in shows
    requires forall s :: s in b.bookedSeats ==> s !in shows[b.show].occupiedSeats
    ensures var show := shows[b.show];
      SeatsHeldByBookers(shows[b.show := show.(occupiedSeats := AssignSeats(show.occupiedSeats, b.bookedSeats, b.user))],
                         bookings[id := b])
  {
    var show := shows[b.show];
    var shows' := shows[b.show := show.(occupiedSeats := AssignSeats(show.occupiedSeats, b.bookedSeats, b.user))];
    var bookings' := bookings[id := b];
    forall id1, s | id1 in bookings' && bookings'[id1].show in shows' && s in bookings'[id1].bookedSeats
      ensures s in shows'[bookings'[id1].show].occupiedSeats &&
              shows'[bookings'[id1].show].occupiedSeats[s] == bookings'[id1].user
    {
      if id1 != id && bookings[id1].show == b.show {
        assert s in show.occupiedSeats;
      }
    }
  }

  /** A new booking of free seats shares no seat with a stored booking of its show. */
  lemma CreateKeepsDisjoint(shows: map<ShowId, Show>, bookings: map<BookingId, Booking>, id: BookingId, b: Booking)
    requires SeatsHeldByBookers(shows, bookings) && BookingsDisjoint(bookings) && id !in bookings && b.show in shows
    requires forall s :: s in b.bookedSeats ==> s !in shows[b.show].occupiedSeats
    ensures BookingsDisjoint(bookings[id := b])
  {
    var bookings' := bookings[id := b];
    forall id1, id2, s | id1 in bookings' && id2 in bookings' && id1 != id2 &&
      bookings'[id1].show == bookings'[id2].show && s in bookings'[id1].bookedSeats
      ensures s !in bookings'[id2].bookedSeats
    {
      if id1 == id {
        assert s !in shows[b.show].occupiedSeats;
      } else if id2 == id {
        assert s in shows[b.show].occupiedSeats;
      }
    }
  }

  /** A booking created for an available selection by a signed-in user keeps the seats allocated once. */
  lemma CreateKeepsAllocation(shows: map<ShowId, Show>, bookings: map<BookingId, Booking>, id: BookingId, b: Booking)
    requires SeatsAllocated(shows, bookings) && id !in bookings && b.show in shows && b.user != ""
    requires CheckSeatsAvailability(shows, b.show, b.bookedSeats)
    ensures var show := shows[b.show];
      SeatsAllocated(shows[b.show := show.(occupiedSeats := AssignSeats(show.occupiedSeats, b.bookedSeats, b.user))],
                     bookings[id := b])
  {
    AvailableSeatsAreFree(shows, b.show, b.bookedSeats);
    CreateKeepsHeld(shows, bookings, id, b);
    CreateKeepsDisjoint(shows, bookings, id, b);
  }

  /** Releasing a booking keeps the seats of the other bookings allocated. */
  lemma ReleaseKeepsAllocation(shows: map<ShowId, Show>, bookings: map<BookingId, Booking>, id: BookingId)
    requires SeatsAllocated(shows, bookings) && id in bookings && bookings[id].show in shows
    ensures var b := bookings[id];
      var show := shows[b.show];
      SeatsAllocated(shows[b.show := show.(occupiedSeats := DropSeats(show.occupiedSeats, b.bookedSeats))],
                     bookings - {id})
  {
    var b := bookings[id];
    var show := shows[b.show];
    var occ := DropSeats(show.occupiedSeats, b.bookedSeats);
    var shows' := shows[b.show := show.(occupiedSeats := occ)];
    var bookings' := bookings - {id};
    forall id1, s | id1 in bookings' && bookings'[id1].show in shows' && s in bookings'[id1].bookedSeats
      ensures s in shows'[bookings'[id1].show].occupiedSeats &&
              shows'[bookings'[id1].show].occupiedSeats[s] == bookings'[id1].user
    {
      if bookings[id1].show == b.show {
        assert s !in b.bookedSeats;
      }
    }
  }

  /** Confirming a payment keeps the seats allocated. */
  lemma ConfirmKeepsAllocation(shows: map<ShowId, Show>, bookings: map<BookingId, Booking>, id: BookingId)
    requires SeatsAllocated(shows, bookings) && id in bookings
    ensures SeatsAllocated(shows, bookings[id := MarkPaid(bookings[id])])
  {
    var bookings' := bookings[id := MarkPaid(bookings[id])];
    assert forall id1 :: id1 in bookings' ==>
      bookings'[id1].show == bookings[id1].show && bookings'[id1].user == bookings[id1].user &&
      bookings'[id1].bookedSeats == bookings[id1].bookedSeats;
  }

  class Ledger {
    var shows: map<ShowId, Show>
    var bookings: map<BookingId, Booking>
    var seats: map<nat, SeatRow>
    var nextBookingId: BookingId

    /** Every stored booking id was handed out before `nextBookingId`. */
    ghost predicate Valid()
      reads this
    {
      forall id :: id in bookings ==> id < nextBookingId
    }

    /** A store loaded from existing documents and rows. */
    constructor (shows0: map<ShowId, Show>, bookings0: map<BookingId, Booking>, seats0: map<nat, SeatRow>,
                 nextBookingId0: BookingId)
      requires forall id :: id in bookings0 ==> id < nextBookingId0
      ensures Valid()
      ensures shows == shows0 && bookings == bookings0 && seats == seats0 && nextBookingId == nextBookingId0
    {
      shows, bookings, seats, nextBookingId := shows0, bookings0, seats0, nextBookingId0;
    }

    /**
     * `createBooking`: check availability; if unavailable reply with failure and change
     * nothing; otherwise create a PENDING booking priced at showPrice x seat count with
     * the selection as its seats, and hold every selected seat for `userId`.
     */
    method CreateBooking(userId: UserId, showId: ShowId, selectedSeats: seq<SeatId>, now: int)
      returns (reply: CreateReply)
      requires Valid()
      modifies this
      ensures Valid() && seats == old(seats)
      ensures reply.success <==> CheckSeatsAvailability(old(shows), showId, selectedSeats)
      ensures !reply.success ==>
        reply.message == SEATS_UNAVAILABLE &&
        shows == old(shows) && bookings == old(bookings) && nextBookingId == old(nextBookingId)
      ensures reply.success ==>
        var show := old(shows)[showId];
        reply.message == BOOKED &&
        old(nextBookingId) !in old(bookings) &&
        nextBookingId == old(nextBookingId) + 1 &&
        bookings == old(bookings)[old(nextBookingId) :=
          Booking(userId, showId, show.showPrice * |selectedSeats|, selectedSeats, false, Pending, "", now)] &&
        shows == old(shows)[showId := show.(occupiedSeats := AssignSeats(show.occupiedSeats, selectedSeats, userId))]
      ensures old(Consistent(bookings)) ==> Consistent(bookings)
      ensures old(SeatsAllocated(shows, bookings)) && userId != "" ==> SeatsAllocated(shows, bookings)
    {
      ghost var wasAllocated := SeatsAllocated(shows, bookings);
      var isAvailable := CheckSeatsAvailability(shows, showId, selectedSeats);
      if !isAvailable {
        return CreateReply(false, SEATS_UNAVAILABLE);
      }
      var showData := shows[showId];
      var id := nextBookingId;
      var booking := Booking(userId, showId, showData.showPrice * |selectedSeats|, selectedSeats, false, Pending, "", now);
      if wasAllocated && userId != "" {
        CreateKeepsAllocation(shows, bookings, id, booking);
      }
      var occupied := WriteSeats(showData.occupiedSeats, selectedSeats, userId);
      shows, bookings, nextBookingId :=
        shows[showId := showData.(occupiedSeats := occupied)], bookings[id := booking], nextBookingId + 1;
      reply := CreateReply(true, BOOKED);
    }

    /** `getOccupiedSeats`: the seats that are keys of the show's map; `None` for a missing show. */
    function GetOccupiedSeats(showId: ShowId): (r: Option<set<SeatId>>)
      reads this
      ensures r.Some? <==> showId in shows
      ensures r.Some? ==> forall s :: s in r.value <==> s in shows[showId].occupiedSeats
    {
      if showId in shows then Some(shows[showId].occupiedSeats.Keys) else None
    }

    /**
     * The checked step of `releaseSeatsAndDeleteBooking`: a paid booking is left alone;
     * an unpaid one has every booked seat deleted from its show and is itself deleted.
     * A missing booking or show makes the step throw before anything is written.
     */
    method ReleaseSeatsAndDeleteBooking(bookingId: BookingId) returns (r: ReleaseOutcome)
      requires Valid()
      modifies this
      ensures Valid() && seats == old(seats) && nextBookingId == old(nextBookingId)
      ensures r == AlreadyPaid <==> bookingId in old(bookings) && old(bookings)[bookingId].isPaid
      ensures r == Crashed <==>
        bookingId !in old(bookings) ||
        (!old(bookings)[bookingId].isPaid && old(bookings)[bookingId].show !in old(shows))
      ensures r != Released ==> shows == old(shows) && bookings == old(bookings)
      ensures r == Released ==>
        var b := old(bookings)[bookingId];
        var show := old(shows)[b.show];
        bookings == old(bookings) - {bookingId} &&
        shows == old(shows)[b.show := show.(occupiedSeats := DropSeats(show.occupiedSeats, b.bookedSeats))]
      ensures old(Consistent(bookings)) ==> Consistent(bookings)
      ensures old(SeatsAllocated(shows, bookings)) ==> SeatsAllocated(shows, bookings)
    {
      if bookingId !in bookings {
        return Crashed;
      }
      var booking := bookings[bookingId];
      if booking.isPaid {
        return AlreadyPaid;
      }
      if booking.show !in shows {
        return Crashed;
      }
      var show := shows[booking.show];
      if SeatsAllocated(shows, bookings) {
        ReleaseKeepsAllocation(shows, bookings, bookingId);
      }
      var occupied := DeleteSeats(show.occupiedSeats, booking.bookedSeats);
      shows := shows[booking.show := show.(occupiedSeats := occupied)];
      bookings := bookings - {bookingId};
      r := Released;
    }

    /** The webhook takes the EXPIRED branch for this event. */
    predicate FindsExpired(signatureOk: bool, event: StripeEvent)
      reads this
    {
      signatureOk && event.eventType == CHECKOUT_COMPLETED &&
      event.bookingId in bookings && bookings[event.bookingId].status == Expired
    }

    /** The webhook commits the PAID transaction for this event. */
    predicate Confirms(signatureOk: bool, event: StripeEvent, commits: bool)
      reads this
    {
      signatureOk && event.eventType == CHECKOUT_COMPLETED &&
      event.bookingId in bookings && bookings[event.bookingId].status != Expired && commits
    }

    /**
     * The payment webhook. A bad signature is answered 400; any other event type, an
     * unknown booking or a failed transaction changes nothing; an EXPIRED booking is
     * left as it is and a refund is requested iff the event has a non-empty payment intent;
     * otherwise (no PENDING guard) the booking becomes paid and its Seat rows BOOKED
     * in one transaction, after which the confirmation event is sent.
     * `commits` says whether the database transaction commits.
     */
    method HandleStripeWebhook(signatureOk: bool, event: StripeEvent, commits: bool) returns (reply: WebhookReply)
      requires Valid()
      modifies this
      ensures Valid() && shows == old(shows) && nextBookingId == old(nextBookingId)
      ensures reply.httpStatus == if signatureOk then 200 else 400
      ensures reply.refundRequested <==>
        old(FindsExpired(signatureOk, event)) && event.paymentIntent.Some? && event.paymentIntent.value != ""
      ensures reply.confirmationSent <==> old(Confirms(signatureOk, event, commits))
      ensures !old(Confirms(signatureOk, event, commits)) ==> bookings == old(bookings) && seats == old(seats)
      ensures old(Confirms(signatureOk, event, commits)) ==>
        bookings == old(bookings)[event.bookingId := MarkPaid(old(bookings)[event.bookingId])] &&
        seats == MarkSeatsBooked(old(seats), event.bookingId)
      ensures old(Consistent(bookings)) ==> Consistent(bookings)
      ensures old(SeatsAllocated(shows, bookings)) ==> SeatsAllocated(shows, bookings)
    {
      if !signatureOk {
        return WebhookReply(400, false, false);
      }
      if event.eventType != CHECKOUT_COMPLETED {
        return WebhookReply(200, false, false);
      }
      if event.bookingId !in bookings {
        return WebhookReply(200, false, false);
      }
      var booking := bookings[event.bookingId];
      if booking.status == Expired {
        return WebhookReply(200, event.paymentIntent.Some? && event.paymentIntent.value != "", false);
      }
      if !commits {
        return WebhookReply(200, false, false);
      }
      if SeatsAllocated(shows, bookings) {
        ConfirmKeepsAllocation(shows, bookings, event.bookingId);
      }
      bookings := bookings[event.bookingId := MarkPaid(booking)];
      seats := MarkSeatsBooked(seats, event.bookingId);
      reply := WebhookReply(200, false, true);
    }
  }

  /**
   * A payment for an unpaid booking that arrives after its release finds no booking:
   * nothing is marked PAID and no refund is requested.
   */
  method LatePaymentAfterRelease(ledger: Ledger, id: BookingId, paymentIntent: Option<string>)
    returns (reply: WebhookReply)
    requires ledger.Valid() && id in ledger.bookings && !ledger.bookings[id].isPaid
    requires ledger.bookings[id].show in ledger.shows
    modifies ledger
    ensures ledger.Valid() && id !in ledger.bookings && ledger.seats == old(ledger.seats)
    ensures reply == WebhookReply(200, false, false)
  {
    var released := ledger.ReleaseSeatsAndDeleteBooking(id);
    assert released == Released;
    reply := ledger.HandleStripeWebhook(true, StripeEvent(CHECKOUT_COMPLETED, id, paymentIntent), true);
  }

  /** Delivering the same payment event twice leaves the state one delivery leaves. */
  method RedeliveredPayment(ledger: Ledger, event: StripeEvent)
    returns (first: WebhookReply, second: WebhookReply)
    requires ledger.Valid() && event.eventType == CHECKOUT_COMPLETED
    requires event.bookingId in ledger.bookings && ledger.bookings[event.bookingId].status != Expired
    modifies ledger
    ensures ledger.Valid() && first == second == WebhookReply(200, false, true)
    ensures ledger.bookings == old(ledger.bookings)[event.bookingId := MarkPaid(old(ledger.bookings)[event.bookingId])]
    ensures ledger.seats == MarkSeatsBooked(old(ledger.seats), event.bookingId)
  {
    first := ledger.HandleStripeWebhook(true, event, true);
    second := ledger.HandleStripeWebhook(true, event, true);
    ConfirmTwiceIsConfirmOnce(old(ledger.bookings)[event.bookingId], old(ledger.seats), event.bookingId);
  }

  /** A release that fires after the payment was confirmed leaves the held seats in place. */
  method ReleaseAfterPayment(ledger: Ledger, event: StripeEvent) returns (r: ReleaseOutcome)
    requires ledger.Valid() && event.eventType == CHECKOUT_COMPLETED
    requires event.bookingId in ledger.bookings && ledger.bookings[event.bookingId].status != Expired
    modifies ledger
    ensures r == AlreadyPaid && ledger.shows == old(ledger.shows)
    ensures event.bookingId in ledger.bookings && ledger.bookings[event.bookingId].status == Paid
  {
    var reply := ledger.HandleStripeWebhook(true, event, true);
    r := ledger.ReleaseSeatsAndDeleteBooking(event.bookingId);
  }

  /**
   * A booking that is never paid: after the release its seats are exactly as before
   * the booking and the booking is gone, so the seats can be booked again.
   */
  method BookThenRelease(ledger: Ledger, userId: UserId, showId: ShowId, selected: seq<SeatId>, now: int)
    returns (reply: CreateReply, released: Option<ReleaseOutcome>)
    requires ledger.Valid() && showId in ledger.shows && HoldersNonEmpty(ledger.shows[showId].occupiedSeats)
    modifies ledger
    ensures ledger.Valid()
    ensures released == if reply.success then Some(Released) else None
    ensures ledger.shows == old(ledger.shows) && ledger.bookings == old(ledger.bookings)
  {
    reply := ledger.CreateBooking(userId, showId, selected, now);
    if !reply.success {
      return reply, None;
    }
    var id := ledger.nextBookingId - 1;
    ghost var created := ledger.bookings;
    assert created - {id} == old(ledger.bookings);
    ReleaseUndoesReservation(old(ledger.shows)[showId].occupiedSeats, selected, userId);
    var r := ledger.ReleaseSeatsAndDeleteBooking(id);
    released := Some(r);
  }
}
