# GrabYourSeat booking core, modelled in Dafny

GrabYourSeat sells cinema seats. A user picks up to five seats of a show time. The
server checks that none of them is held, creates a PENDING booking priced at
`showPrice × seat count`, and writes the user as holder of every picked seat into
the show's `occupiedSeats` map. Ten minutes later a background step releases the
seats of a booking that is still unpaid and deletes it. The payment provider's
webhook marks a booking PAID and its Seat rows BOOKED, or asks for a refund when the
booking is EXPIRED.

Around this lifecycle the model also covers:
- the admin read side: dashboard totals, upcoming shows with a seat map rebuilt from
  PAID bookings, and the PAID booking list;
- the `addShow` catalog operation and the favourite-movie toggle;
- the client's pure helpers: seat-click rules and seat-id grid, the admin date/time
  selection and its request body, duration and 12-hour time formatting, word trimming
  and the genre line.

Layout, one module per file:

| file | module | models |
|---|---|---|
| wrappers.dfy | `Wrappers` | `Option` |
| js_text.dfy | `JsText` | JavaScript `split`, `join`, `${n}` and `Number(text)` |
| lists.dfy | `Lists` | `includes ? filter : [...list, x]` |
| ordering.dfy | `Ordering` | a query's `orderBy` as a sort on an integer key |
| bookings.dfy | `Bookings` | booking values, seat availability, the seat-map writes |
| ledger.dfy | `Ledger` | class `Ledger`: create booking, occupied seats, release, payment webhook |
| reminders.dfy | `Reminders` | the reminder job |
| admin.dfy | `Admin` | server/controllers/adminController.js |
| show_catalog.dfy | `ShowCatalog` | `addShow` |
| favorites.dfy | `Favorites` | `updateFavorite` |
| seat_layout.dfy | `SeatLayout` | client/src/pages/SeatLayout.jsx |
| add_shows.dfy | `AddShows` | client/src/pages/admin/AddShows.jsx |
| date_time_format.dfy | `DateTimeFormat` | `timeFormat`, `time24To12` |
| hero_section.dfy | `HeroSection` | `trimWords`, the genre line |

The server keeps show documents and booking documents in one store and booking
status and Seat rows in another. The model holds all of them in the single class
`Ledger.Ledger`, keyed by show id and booking id. Database reads and writes become
reads and assignments of its fields. Calls to outside services become parameters:
- the signature check is a boolean;
- whether the transaction commits is a boolean;
- TMDB's movie details are an `Option`;
- whether a reminder e-mail was delivered is a function;
- the seats a client fetch returns are an `Option`.

Dates are milliseconds (`int`) on the server side and their source text on the
client side. JavaScript details are written out:
- `occupiedSeats[seat]` is truthy only for a key whose holder is not `""`;
- `%` truncates toward zero;
- `x || d` replaces `0` and missing values;
- `slice` clamps its end and counts a negative end from the back;
- `Number` of a non-numeric text is NaN, written `None`.

The model follows the code, including where it departs from the booking lifecycle
described above:
- the release step deletes an unpaid booking instead of marking it EXPIRED, so a late
  payment finds no booking and no refund is requested;
- the webhook has no "only while PENDING" guard;
- `createBooking` creates no Seat rows and no payment session;
- seat availability is checked with a read of the show's map, not with an atomic
  claim.

## Model

| member | source | states |
|---|---|---|
| JsText.Split | client/src/components/HeroSection.jsx:26 | `split(' ')` yields at least one piece and no piece contains the separator |
| JsText.SplitWithoutSeparator | client/src/lib/dateTimeFormat.js:26 | a text without the separator splits into itself alone |
| JsText.SplitAtFirst | client/src/pages/admin/AddShows.jsx:39 | a split stops at the first separator: the text before it is the first piece and the rest is split again |
| JsText.JoinSplit | client/src/components/HeroSection.jsx:26-28 | joining the pieces of a split with the same separator gives the text back |
| JsText.SplitJoin | client/src/components/HeroSection.jsx:26-28 | splitting the join of separator-free pieces gives the pieces back |
| JsText.JoinPrefix | client/src/components/HeroSection.jsx:28 | the join of the first k pieces is a prefix of the join of all pieces |
| JsText.SplitCountPrefix | client/src/components/HeroSection.jsx:24 | a leading text without the separator is prepended to the first piece and changes no other piece, so the number of pieces stays |
| JsText.NatToString | client/src/pages/SeatLayout.jsx:170 | `${n}` of a non-negative integer is a non-empty string of digits |
| JsText.DigitsValueOfNatToString | client/src/lib/dateTimeFormat.js:4 | reading the decimal text of n gives n |
| JsText.SplitJoinCount | client/src/components/HeroSection.jsx:24 | a text joined with a separator holding '\|' once splits at '\|' into as many pieces as were joined, piece i being part i with the separator's text after '\|' before it (unless first) and its text before '\|' after it (unless last) |
| JsText.NumberOf | client/src/lib/dateTimeFormat.js:27 | `Number(text)` is a number exactly when the text is all digits |
| JsText.NumberOfNatToString | client/src/lib/dateTimeFormat.js:4 | `Number` of the decimal text of n is n |
| JsText.NatToStringInjective | client/src/pages/SeatLayout.jsx:170 | different numbers render as different texts |
| Lists.RemoveAll | server/controllers/userController.js:37-39 | the filtered list no longer contains the removed id |
| Lists.RemoveAllContents | server/controllers/userController.js:37-39 | filtering drops every occurrence of the id and keeps the count of every other id |
| Lists.RemoveAllAbsent | server/controllers/userController.js:37-39 | filtering out an id that is not listed changes nothing |
| Lists.RemoveAllAppend | server/controllers/userController.js:37-39 | filtering distributes over concatenation, so the other ids keep their order |
| Lists.Toggle | server/controllers/userController.js:34-39 | after the toggle the id is listed iff it was not listed before |
| Lists.ToggleContents | server/controllers/userController.js:34-39 | the toggle removes all copies of a listed id, or adds exactly one copy of an unlisted id |
| Lists.ToggleTwiceAbsent | server/controllers/userController.js:34-39 | toggling an unlisted id appends it at the end, and toggling again restores the list |
| Lists.RemoveAllNoDuplicates | client/src/pages/SeatLayout.jsx:45 | filtering keeps a duplicate-free list duplicate-free |
| Lists.ToggleNoDuplicates | client/src/pages/SeatLayout.jsx:43-47 | toggling keeps a duplicate-free selection duplicate-free |
| Ordering.SortBy | server/controllers/adminController.js:46 | the ordered rows are sorted by the key and are a permutation of the query's rows |
| Ordering.Insert | server/controllers/adminController.js:46 | inserting a row adds exactly that row |
| Ordering.InsertSorted | server/controllers/adminController.js:46 | inserting into sorted rows keeps them sorted |
| Bookings.SomeSeatHeld | server/controllers/bookingController.js:13 | the `some` over a seat map is true iff a selected seat has a truthy holder; over `undefined` it throws iff the selection is non-empty |
| Bookings.CheckSeatsAvailability | server/controllers/bookingController.js:6-20 | intended check: a selection is available iff the show exists and none of its seats has a truthy holder |
| Bookings.CheckSeatsAvailabilityAsWritten | server/controllers/bookingController.js:6-20 | the check as written reports available iff the show exists and the selection is empty, so it never accepts what the intended check refuses |
| Bookings.AsWrittenRejectsAFreeSeat | server/controllers/bookingController.js:11 | a free seat of an existing show is available as intended and unavailable as written |
| Bookings.AvailableIffNoSeatIsAKey | server/controllers/bookingController.js:13 | with non-empty holders, a selection is available iff none of its seats is a key of the map |
| Bookings.AssignSeats | server/controllers/bookingController.js:51-53 | every selected seat is held by the user, other keys keep their holders, and no other key appears |
| Bookings.WriteSeats | server/controllers/bookingController.js:51-53 | the assignment loop computes `AssignSeats` |
| Bookings.DropSeats | server/inngest/index.js:71-73 | every booked seat is gone whoever held it, and other keys keep their holders |
| Bookings.DeleteSeats | server/inngest/index.js:71-73 | the delete loop computes `DropSeats` |
| Bookings.ReservedSelectionIsUnavailable | server/controllers/bookingController.js:51-53 | once a non-empty selection is held by a non-empty user id, the same selection is unavailable |
| Bookings.ReleasedSeatsAreFree | server/inngest/index.js:71-73 | after the release no released seat is held |
| Bookings.ReleaseUndoesReservation | server/inngest/index.js:69-76 | releasing a reservation of seats that were not keys restores the show's map |
| Bookings.MarkPaid | server/controllers/stripeWebhooks.js:65-72 | the booking becomes paid with status PAID and an empty payment link, and no other field changes |
| Bookings.MarkSeatsBooked | server/controllers/stripeWebhooks.js:75-78 | the booking's Seat rows become BOOKED, other rows are unchanged, and no row is added or removed |
| Bookings.ConfirmTwiceIsConfirmOnce | server/controllers/stripeWebhooks.js:62-79 | applying the confirmation writes twice gives what applying them once gives |
| Ledger.ReleaseWakeTime | server/inngest/index.js:62-63 | the release step wakes 600000 ms after it starts |
| Ledger.AllocatedSeatIsUnavailable | server/controllers/bookingController.js:6-20 | while seats are allocated once, a selection holding a seat of any stored booking is unavailable |
| Ledger.CreateKeepsAllocation | server/controllers/bookingController.js:30-59 | a booking of an available selection by a non-empty user id keeps every booked seat held by its booking's user and no seat shared by two bookings of a show |
| Ledger.ReleaseKeepsAllocation | server/inngest/index.js:69-76 | dropping a booking's seats and deleting it keeps the other bookings' seats held by their users and unshared |
| Ledger.ConfirmKeepsAllocation | server/controllers/stripeWebhooks.js:65-72 | marking a booking PAID keeps the seats allocated once |
| Ledger.Ledger.constructor | server/controllers/bookingController.js:8-9 | the store starts with the given shows, bookings and Seat rows, and every booking id lies below the next id |
| Ledger.Ledger.CreateBooking | server/controllers/bookingController.js:23-68 | succeeds iff the selection is available; on failure nothing changes; on success a new PENDING booking with amount price × seat count and the selection as its seats, and the show's map with the selection held by the user; for a non-empty user id no seat becomes allocated twice |
| Ledger.Ledger.GetOccupiedSeats | server/controllers/bookingController.js:75-77 | the reported seats are exactly the keys of the show's map; a missing show fails |
| Ledger.Ledger.ReleaseSeatsAndDeleteBooking | server/inngest/index.js:64-78 | a paid booking is left alone; an unpaid one loses its seats from the show's map and is deleted; a missing booking or show changes nothing; no seat becomes allocated twice |
| Ledger.Ledger.HandleStripeWebhook | server/controllers/stripeWebhooks.js:11-99 | a bad signature gives 400; other event types, unknown bookings and failed transactions change nothing; an EXPIRED booking stays as it is and a refund is requested iff there is a non-empty payment intent; otherwise booking PAID and its Seat rows BOOKED together, then the confirmation event; no seat becomes allocated twice |
| Ledger.LatePaymentAfterRelease | server/controllers/stripeWebhooks.js:37-40 | a payment that arrives after the release finds no booking, and neither marks anything PAID nor requests a refund |
| Ledger.RedeliveredPayment | server/controllers/stripeWebhooks.js:62-79 | delivering the same payment event twice leaves the state one delivery leaves |
| Ledger.ReleaseAfterPayment | server/inngest/index.js:69 | a release after a confirmed payment leaves the seats held and the booking PAID |
| Ledger.BookThenRelease | server/inngest/index.js:69-76 | a booking that is never paid, once released, leaves the shows and bookings as before it was made |
| Reminders.InReminderWindow | server/inngest/index.js:108-116 | a show is in the window iff it starts between 7 h 50 min and 8 h from now, so it is in the future |
| Reminders.Recipients | server/inngest/index.js:120-125 | the recipients are exactly the distinct holders of the show's seats that have a user record |
| Reminders.TasksForShow | server/inngest/index.js:123-133 | as many tasks as recipients, each carrying a recipient's e-mail and name and the show's title and time, and every recipient has its task |
| Reminders.PrepareReminderTasks | server/inngest/index.js:113-136 | the task count is the sum of recipients over the shows in the window that have a movie and holders, every task belongs to such a show, and every recipient of every such show has its task |
| Reminders.CountFulfilled | server/inngest/index.js:154 | the sent count is at most the number of attempts; it equals it iff every delivery was fulfilled and is 0 iff none was |
| Reminders.Summarize | server/inngest/index.js:137-160 | no tasks gives the nothing-to-send reply; otherwise sent + failed equals the number of tasks |
| Reminders.SendShowReminders | server/inngest/index.js:104-162 | the job returns the tasks (one per recipient of every show in the window, nothing else); it reports nothing to send iff there are none, and otherwise `sent` is the number of fulfilled deliveries and `failed` the rest |
| Admin.PaidOnly | server/controllers/adminController.js:11-13 | the PAID query returns no more rows than there are bookings, all of them PAID |
| Admin.PaidOnlyCount | server/controllers/adminController.js:11-21 | the number of PAID rows is the number of positions holding a PAID booking |
| Admin.PaidIndicesSnoc | server/controllers/adminController.js:11-21 | appending a row adds one PAID position when the row is PAID and none otherwise |
| Admin.Revenue | server/controllers/adminController.js:23 | with no negative amount the revenue is not negative |
| Admin.RevenueOfPaid | server/controllers/adminController.js:11-23 | the revenue of the PAID rows is the sum of the amounts of the PAID bookings |
| Admin.Upcoming | server/controllers/adminController.js:14-17 | the date query returns no more rows than there are shows, all at or after now |
| Admin.PaidOnlyContents | server/controllers/adminController.js:11-13 | the PAID query returns exactly the PAID bookings |
| Admin.PaidOnlyAppend | server/controllers/adminController.js:11-13 | the PAID filter distributes over concatenation |
| Admin.RevenueAppend | server/controllers/adminController.js:23 | the revenue sum distributes over concatenation |
| Admin.UpcomingContents | server/controllers/adminController.js:14-17 | the date query returns exactly the shows at or after now |
| Admin.GetDashboardData | server/controllers/adminController.js:9-26 | the booking total is the number of PAID bookings, the revenue the sum of their amounts, the active shows exactly the shows at or after now, and the user total the user count |
| Admin.DashboardTotalsAdd | server/controllers/adminController.js:21-24 | booking count and revenue over two batches of rows are the sums over each batch |
| Admin.DashboardCountsPaidOnly | server/controllers/adminController.js:11-23 | a booking counts once and adds its amount iff it is PAID; with no PAID booking both totals are 0 |
| Admin.PaidSeatMap | server/controllers/adminController.js:53-59 | every holder in the seat map is the user of some booking |
| Admin.PaidSeatMapHolders | server/controllers/adminController.js:53-59 | the seat map's keys are exactly the seats listed by bookings whose seats are an array, and each seat maps to the user of the last such booking listing it |
| Admin.PaidOccupiedSeats | server/controllers/adminController.js:51-59 | the nested loops compute the paid seat map |
| Admin.UpcomingInOrder | server/controllers/adminController.js:38-47 | the ordered query returns no more rows than there are shows |
| Admin.UpcomingInOrderContents | server/controllers/adminController.js:38-47 | the rows are exactly the shows at or after now, in ascending date order |
| Admin.GetAllShows | server/controllers/adminController.js:36-75 | one listed show per query row, in order, each without bookings and with the seat map of its PAID bookings |
| Admin.GetAllBookings | server/controllers/adminController.js:78-96 | exactly the PAID bookings, as the same multiset as the PAID filter, newest first |
| ShowCatalog.TaglineOf | server/controllers/showController.js:45 | a missing tagline is stored as "" and a present one is kept |
| ShowCatalog.MovieOf | server/controllers/showController.js:35-48 | the stored movie has the requested id, TMDB's title and the defaulted tagline |
| ShowCatalog.Expansion | server/controllers/showController.js:53-65 | when it does not throw, the expansion has one show per (date, time) pair |
| ShowCatalog.ExpansionFails | server/controllers/showController.js:54-56 | building the shows throws iff some input element has no time list |
| ShowCatalog.ExpansionShape | server/controllers/showController.js:54-65 | one show per (date, time) pair, each of the movie, at the given price, with an empty seat map |
| ShowCatalog.ExpansionAppend | server/controllers/showController.js:54 | dates are expanded in input order |
| ShowCatalog.ExpansionOfOne | server/controllers/showController.js:56-58 | the times of one date are expanded in order, each as date + "T" + time |
| ShowCatalog.BuildShowsToCreate | server/controllers/showController.js:53-65 | the nested loops compute the expansion, or throw when it does |
| ShowCatalog.ExpansionPrefixFails | server/controllers/showController.js:54-56 | once the elements up to some point throw, the whole input throws |
| ShowCatalog.Catalog.constructor | server/controllers/showController.js:22 | the catalog starts with the given movies and shows |
| ShowCatalog.Catalog.AddShow | server/controllers/showController.js:18-76 | a known movie gets no reply and changes nothing; a failed TMDB call changes nothing; otherwise the movie is stored, and its shows are appended unless the expansion throws |
| Favorites.UserMetadata.UpdateFavorite | server/controllers/userController.js:30-39 | the list exists afterwards; an unlisted id is appended at the end; a listed id loses every occurrence; membership flips; duplicate-freedom is kept |
| Favorites.UserMetadata.constructor | server/controllers/userController.js:28 | the metadata starts with the favourites list it was loaded with, possibly missing |
| Favorites.UpdateFavoriteTwice | server/controllers/userController.js:34-39 | two updates with an unlisted id leave the list as it was |
| SeatLayout.SeatPicker.constructor | client/src/pages/SeatLayout.jsx:17-19 | the page starts with no seat, no occupied seat and no time |
| SeatLayout.SeatPicker.HandleSeatClick | client/src/pages/SeatLayout.jsx:33-48 | no time: no change; a new sixth seat is refused before the occupied check; an occupied seat is refused; otherwise the seat is toggled; at most five distinct seats stay selected |
| SeatLayout.SeatPicker.SelectTime | client/src/pages/SeatLayout.jsx:119-124 | another time clears the selection and loads its occupied seats, a failed load keeps the old ones, and the same time changes nothing |
| SeatLayout.SeatPicker.BookTickets | client/src/pages/SeatLayout.jsx:88-104 | the request is sent iff there is a user, a time and a seat, and it carries the time's show id and the selection |
| SeatLayout.OrDefault | client/src/pages/SeatLayout.jsx:51 | a missing or zero count takes the default |
| SeatLayout.SliceEnd | client/src/pages/SeatLayout.jsx:161 | `slice(0, end)` keeps `end` letters clamped to the length, and counts a negative end from the back |
| SeatLayout.RowLabels | client/src/pages/SeatLayout.jsx:160-161 | the row letters are the first letters of A–Z, as many as the row count when it is in 1..26 |
| SeatLayout.SeatsPerRow | client/src/pages/SeatLayout.jsx:51 | the seat count of a row is `seatsPerRow \|\| 9`, and 0 when that is negative |
| SeatLayout.RowSeats | client/src/pages/SeatLayout.jsx:169-170 | a row has one id per seat |
| SeatLayout.Grid | client/src/pages/SeatLayout.jsx:159-170 | the grid has rows × seats-per-row ids |
| SeatLayout.SeatIdDecodes | client/src/pages/SeatLayout.jsx:170 | a seat id starts with its row letter, and the rest reads back as its number |
| SeatLayout.SeatIdInjective | client/src/pages/SeatLayout.jsx:170 | different positions give different ids |
| SeatLayout.GridContents | client/src/pages/SeatLayout.jsx:163-170 | the grid holds exactly the ids of a row letter followed by a number in 1..seats-per-row |
| SeatLayout.GridNoDuplicates | client/src/pages/SeatLayout.jsx:163-170 | with distinct row letters no id appears twice |
| SeatLayout.GridOfSlot | client/src/pages/SeatLayout.jsx:159-170 | the rendered grid has distinct ids, as many as row letters × seats per row |
| AddShows.Lookup | client/src/pages/admin/AddShows.jsx:43 | `sel[date]` is defined iff the date is a key, and is that key's list |
| AddShows.Put | client/src/pages/admin/AddShows.jsx:45 | writing a new date adds it after the existing keys |
| AddShows.PutLookup | client/src/pages/admin/AddShows.jsx:45 | after a write the date maps to the new list and every other date is unchanged |
| AddShows.PutEntries | client/src/pages/admin/AddShows.jsx:45 | a write keeps the other entries, adds only the written one, and keeps the key count for an existing date |
| AddShows.Delete | client/src/pages/admin/AddShows.jsx:55-56 | the rest object holds only entries of the old object with other dates |
| AddShows.DeleteLookup | client/src/pages/admin/AddShows.jsx:55-56 | after the delete the date is no key and every other date is unchanged |
| AddShows.RemoveTime | client/src/pages/admin/AddShows.jsx:51-63 | removing succeeds iff the date is a key (`filter` of undefined throws otherwise) |
| AddShows.ParseDateTimeInput | client/src/pages/admin/AddShows.jsx:39 | splitting "date T time" at 'T' gives the date and the time |
| AddShows.AddDateTime | client/src/pages/admin/AddShows.jsx:37-49 | adding keeps keys distinct and every list non-empty, and adds at most one key |
| AddShows.AddDateTimeEffect | client/src/pages/admin/AddShows.jsx:42-48 | after adding, the date lists the time; a time already listed is a no-op; a new one is appended; other dates are unchanged |
| AddShows.AddDateTimeIgnoresIncompleteInput | client/src/pages/admin/AddShows.jsx:38-40 | empty input or input without both a date and a time changes nothing |
| AddShows.PutWellFormed | client/src/pages/admin/AddShows.jsx:45 | writing a non-empty list keeps keys distinct and every list non-empty |
| AddShows.DeleteWellFormed | client/src/pages/admin/AddShows.jsx:55-56 | deleting a key keeps keys distinct and every list non-empty |
| AddShows.RemoveTimeWellFormed | client/src/pages/admin/AddShows.jsx:53-61 | removing keeps the date's other times or drops the key when none is left, so no date maps to an empty list, and other dates are unchanged |
| AddShows.PutSame | client/src/pages/admin/AddShows.jsx:58-61 | writing back a date's own list changes nothing |
| AddShows.PutPut | client/src/pages/admin/AddShows.jsx:45 | of two writes to one date the second wins |
| AddShows.DeleteAppended | client/src/pages/admin/AddShows.jsx:55-56 | deleting a key that was just added as the last key restores the object |
| AddShows.RemoveAfterAppend | client/src/pages/admin/AddShows.jsx:53-61 | removing the time just appended to a listed date restores the selection |
| AddShows.RemoveAfterNewDate | client/src/pages/admin/AddShows.jsx:53-57 | removing the only time of a just-added date restores the selection |
| AddShows.AddThenRemove | client/src/pages/admin/AddShows.jsx:37-63 | adding a new time and then removing it restores the selection |
| AddShows.ShowsInput | client/src/pages/admin/AddShows.jsx:77-88 | `showsInput` has as many elements as the selection has (date, time) pairs |
| AddShows.ShowsInputPairs | client/src/pages/admin/AddShows.jsx:77-88 | `showsInput` has one element per (date, time) pair and no other |
| AddShows.SentElement | client/src/pages/admin/AddShows.jsx:77-88 | each element the client sends is an object whose only key is `showDateTime` |
| AddShows.ServerRead | server/controllers/showController.js:54-56 | the server's `show.date` is present iff the key is, and `show.time` yields times iff the key holds an array, namely that array |
| AddShows.IntendedElementsReadBack | server/controllers/showController.js:54-56 | a `{ date, time }` element for each date of the selection reads back as that date and its times |
| AddShows.PayloadDoesNotFitServer | client/src/pages/admin/AddShows.jsx:77-88 | elements carrying only `showDateTime` make the server's expansion throw when there are any, and create no show when there are none |
| AddShows.ServerShowsInput | server/controllers/showController.js:54-56 | the body the server reads has one `{date, time}` element per date, holding that date and its times |
| AddShows.IntendedPayloadCreatesEveryShow | server/controllers/showController.js:53-65 | sent in that shape, the selection creates one show of the movie at the price per (date, time) pair, the first date's shows dated date + "T" + time in order |
| AddShows.AddShowsForm.constructor | client/src/pages/admin/AddShows.jsx:16-22 | the form starts empty with 10 rows of 9 seats and not submitting |
| AddShows.AddShowsForm.TotalSeats | client/src/pages/admin/AddShows.jsx:288 | the total seats lie between each slider value and 400 |
| AddShows.AddShowsForm.SetLayout | client/src/pages/admin/AddShows.jsx:258-278 | slider values in 1..20 become the layout and nothing else changes |
| AddShows.AddShowsForm.HandleDateTimeAdd | client/src/pages/admin/AddShows.jsx:37-49 | the selection becomes `AddDateTime` of the input, stays well formed, and nothing else changes |
| AddShows.AddShowsForm.HandleRemoveTime | client/src/pages/admin/AddShows.jsx:51-63 | the selection becomes `RemoveTime` of the date and time when the date is a key, stays well formed, and nothing else changes |
| AddShows.AddShowsForm.HandleSubmit | client/src/pages/admin/AddShows.jsx:65-117 | missing movie, dates or price: no request and `addingShow` stays true; otherwise the request carries one element per pair, a success resets the form, and `addingShow` ends false |
| DateTimeFormat.RemainderMinutes | client/src/lib/dateTimeFormat.js:2-3 | the remainder lies in -59..59; for m ≥ 0, hours × 60 + remainder = m with both parts non-negative |
| DateTimeFormat.TimeFormatNegativeParts | client/src/lib/dateTimeFormat.js:2-3 | for a negative duration that is not whole hours, the floored hours and the truncated remainder add up to one hour less |
| DateTimeFormat.TimeFormat | client/src/lib/dateTimeFormat.js:1-5 | the "Hh Mm" text of a non-negative duration reads back as that duration, so different durations give different texts |
| DateTimeFormat.ParseDurationParts | client/src/lib/dateTimeFormat.js:4 | hours and minutes written as "Hh Mm" read back as hours × 60 + minutes |
| DateTimeFormat.Hour12 | client/src/lib/dateTimeFormat.js:29 | the shown hour is h mod 12, or 12 when that is 0 or h is NaN, so it lies in 1..12 |
| DateTimeFormat.Period | client/src/lib/dateTimeFormat.js:28 | PM iff the hour is a number ≥ 12 |
| DateTimeFormat.Time24To12 | client/src/lib/dateTimeFormat.js:25-31 | the figure before the first ':' is the 12-hour figure of the hour, and the text ends in " PM" iff the hour is a number ≥ 12 and in " AM" otherwise |
| DateTimeFormat.Time24To12Parts | client/src/lib/dateTimeFormat.js:25-31 | "HH:MM" is shown as the 12-hour figure, the minute text verbatim and the period |
| DateTimeFormat.MidnightAndNoon | client/src/lib/dateTimeFormat.js:28-29 | "00:mm" is shown as "12:mm AM" and "12:mm" as "12:mm PM" |
| DateTimeFormat.Hour12Recovers | client/src/lib/dateTimeFormat.js:28-29 | on a 24-hour clock the shown hour and period determine the hour |
| HeroSection.TrimWords | client/src/components/HeroSection.jsx:25-30 | text with at most `limit` words is unchanged; longer text ends in "..." and the part before it is a prefix of the text |
| HeroSection.TrimmedWords | client/src/components/HeroSection.jsx:27-28 | for limit ≥ 1 the part before "..." holds exactly the first `limit` words |
| HeroSection.FirstNames | client/src/components/HeroSection.jsx:24 | the names of the first min(3, count) genres, in order |
| HeroSection.GenreSummary | client/src/components/HeroSection.jsx:24 | missing or empty genres give "" |
| HeroSection.GenreSummaryPieces | client/src/components/HeroSection.jsx:24 | with names free of '\|', the line lists exactly min(3, count) ≤ 3 names, and piece i of its split at '\|' is the name of genre i with the separator's spaces around it |

## Left out

- Concurrency. Two requests may race between the availability check and the save of the show (server/controllers/bookingController.js:30-59). The model runs operations one at a time.
- `createBooking` creates no Seat rows, no payment session and no `app/checkpayment` event in the code, and the model does not either. The Seat rows are taken as given by `Ledger.Ledger.constructor`.
- `createBooking`: a show deleted between the check and the second fetch, and a save that fails, are left out. Both are database failures.
- The release step's durable sleep and the reminder job's cron schedule are left out. Only the wake time is computed.
- The webhook's `parseInt` of the booking id from the session metadata is left out; the id is a `nat`. Database errors (the 500 reply) are left out, as are log lines and a failed refund call (it is caught and has no effect on state).
- E-mail content and delivery: the booking-confirmation and reminder e-mails are outside the model. Reminder delivery is an input function.
- `Reminders.PrepareReminderTasks`: the order of the user records returned by the user query is not fixed. The model picks one arbitrarily, so task order is not stated.
- The `addShow` error messages (`error.message`) are replaced by the single outcome `Failed`. `getNowPlayingMovies`, `getUserBookings`, `getFavorites` and `isAdmin` are plain reads or constant replies and are not modelled.
- `ShowCatalog.Catalog.AddShow`: `new Date(date + "T" + time)` is left out. It depends on the local time zone, so a show keeps its date-time as text. The TMDB fields not copied by the model (poster and backdrop paths, genres, cast, release date, language, vote average) are left out.
- `AddShows.AddShowsForm.HandleSubmit`: the `Date` built from the numeric parts of each pair depends on the local time zone. It is represented by the (date, time) pair it is built from.
- JsText.NumberOf: `Number(text)` is modelled for digit strings only, with "" read as 0. Texts with signs, decimals or surrounding spaces are treated as NaN.
- The client's toasts, navigation and rendering, `isoTimeFormat` and `dateFormat` (locale and time zone), the random hero pick, and `vote_average.toFixed` (floating point) are left out.
- `DateTimeFormat.TimeFormat` is modelled for integer minutes only. A missing or fractional runtime gives NaN or fractional parts in the source.
- `SeatLayout.SeatPicker.SelectTime`: the occupied-seat fetch is asynchronous. The model applies its result at once.
- Reminders.SendShowReminders: the sent + failed tally assumes that the mail body builds and that shows carry `showTime`. As written neither holds. `getReminderHTML` reads an undeclared `booking` (server/lib/emailTemplates/reminder.js:2), so the `map` at server/inngest/index.js:145-150 throws before any mail is sent. The show query and the tasks use `showTime` (server/inngest/index.js:115, 131), while `addShow` writes `showDateTime` (server/controllers/showController.js:60) and the admin queries read it (server/controllers/adminController.js:15, 39, 46). The model reads one show time field and delivers through an input function.
- Ledger.ReleaseAfterPayment, Ledger.LatePaymentAfterRelease and Ledger.RedeliveredPayment hold only when both stores hold one record per booking. The code keeps two. The webhook reads and writes the relational booking found by `parseInt` of the id (server/controllers/stripeWebhooks.js:33-35, 65-72). The release step reads `isPaid` of the document booking (server/inngest/index.js:66-69), which neither the webhook nor any other modelled operation writes. As written, a paid booking's seats are still released. The model keeps one booking record.
- Admin.RevenueAppend and Admin.DashboardTotalsAdd assume whole-number amounts (below 2^53). Prices and amounts are JavaScript numbers. They may be fractional, and floating-point addition is not associative (server/controllers/bookingController.js:46, server/controllers/adminController.js:23). The model's amounts are integers.

## Findings

| source | as written | input that shows it | evidently intended | confidence | as-written member | corrected member |
|---|---|---|---|---|---|---|
| server/controllers/bookingController.js:11 | `checkSeatsAvailability` reads `Show.occupiedSeats`, a property of the model class, which is `undefined`. For a non-empty selection the `some` callback throws, the error is caught, and every such selection is reported unavailable, so no booking of any seat can succeed. | an existing show with price 150 and an empty seat map; selection `["A1"]` | read the fetched document's `showData.occupiedSeats`, so a selection is available iff none of its seats is held | high; not executed | Bookings.CheckSeatsAvailabilityAsWritten, Bookings.AsWrittenRejectsAFreeSeat | Bookings.CheckSeatsAvailability |
| client/src/pages/admin/AddShows.jsx:77-88 | The admin form sends `showsInput` as one `{showDateTime}` element per (date, time) pair. The server reads `show.date` and `show.time` (server/controllers/showController.js:54-56). For a non-empty selection `show.time.forEach` throws after the movie is stored, and for an empty one no show is created. | a selection `{"2025-07-01": ["18:00"]}` gives `showsInput` `[{showDateTime: ...}]`, whose `time` is undefined | send one `{date, time}` element per date, so every (date, time) pair becomes a show | high; not executed | AddShows.ShowsInput, AddShows.SentElement, AddShows.PayloadDoesNotFitServer | AddShows.ServerShowsInput, AddShows.IntendedElementsReadBack, AddShows.IntendedPayloadCreatesEveryShow |
