/**
 * The read side of server/controllers/adminController.js: the dashboard totals, the
 * upcoming shows with a seat map built from PAID bookings only, and the PAID booking
 * list. The database queries' `where` and `orderBy` clauses are the filters and the
 * sort of `Ordering`; everything else is the controller's own code.
 */
module Admin {
  import opened Wrappers
  import opened Bookings
  import opened Ordering

  /** A booking row; `bookedSeats` is a JSON column, `None` when it does not hold an array. */
  datatype BookingRow = BookingRow(id: nat, userId: UserId, amount: int, status: BookingStatus,
                                   bookedSeats: Option<seq<SeatId>>, createdAt: int)

  /** The columns of a show row that the responses carry. */
  datatype ShowInfo = ShowInfo(id: ShowId, movieTitle: string, showDateTime: int, showPrice: int)

  /** A show row with its related bookings. */
  datatype ShowRow = ShowRow(info: ShowInfo, bookings: seq<BookingRow>)

  /** A show in the `getAllShows` reply: the bookings are gone, the seat map is rebuilt. */
  datatype ListedShow = ListedShow(info: ShowInfo, occupiedSeats: map<SeatId, UserId>)

  datatype DashboardData = DashboardData(totalBookings: nat, totalRevenue: int,
                                         activeShows: seq<ShowInfo>, totalUser: nat)

  /** The rows of a `where: { status: 'PAID' }` query, in their stored order. */
  function PaidOnly(bookings: seq<BookingRow>): (r: seq<BookingRow>)
    ensures |r| <= |bookings|
    ensures forall i :: 0 <= i < |r| ==> r[i].status == Paid
  {
    if bookings == [] then []
    else if bookings[0].status == Paid then [bookings[0]] + PaidOnly(bookings[1..])
    else PaidOnly(bookings[1..])
  }

  /** `PaidOnly` keeps exactly the PAID rows. */
  lemma {:induction false} PaidOnlyContents(bookings: seq<BookingRow>)
    ensures forall b :: b in PaidOnly(bookings) <==> b in bookings && b.status == Paid
    ensures |PaidOnly(bookings)| <= |bookings|
  {
    if bookings != [] {
      PaidOnlyContents(bookings[1..]);
      assert bookings == [bookings[0]] + bookings[1..];
    }
  }

  lemma {:induction false} PaidOnlyAppend(a: seq<BookingRow>, b: seq<BookingRow>)
    ensures PaidOnly(a + b) == PaidOnly(a) + PaidOnly(b)
  {
    if a != [] {
      PaidOnlyAppend(a[1..], b);
      assert (a + b)[1..] == a[1..] + b;
    } else {
      assert a + b == b;
    }
  }

  /** `bookings.reduce((acc, b) => acc + b.amount, 0)`. */
  function Revenue(bookings: seq<BookingRow>): (r: int)
    ensures (forall i :: 0 <= i < |bookings| ==> bookings[i].amount >= 0) ==> r >= 0
  {
    if bookings == [] then 0
    else
      assert forall i :: 1 <= i < |bookings| ==> bookings[1..][i - 1] == bookings[i];
      bookings[0].amount + Revenue(bookings[1..])
  }

  lemma {:induction false} RevenueAppend(a: seq<BookingRow>, b: seq<BookingRow>)
    ensures Revenue(a + b) == Revenue(a) + Revenue(b)
  {
    if a != [] {
      RevenueAppend(a[1..], b);
      assert (a + b)[1..] == a[1..] + b;
    } else {
      assert a + b == b;
    }
  }

  /** The shows of a `where: { showDateTime: { gte: now } }` query. */
  function Upcoming<T>(shows: seq<T>, dateTime: T -> int, now: int): (r: seq<T>)
    ensures |r| <= |shows|
    ensures forall i :: 0 <= i < |r| ==> dateTime(r[i]) >= now
  {
    if shows == [] then []
    else if dateTime(shows[0]) >= now then [shows[0]] + Upcoming(shows[1..], dateTime, now)
    else Upcoming(shows[1..], dateTime, now)
  }

  /** `Upcoming` keeps exactly the shows at or after `now`. */
  lemma {:induction false} UpcomingContents<T>(shows: seq<T>, dateTime: T -> int, now: int)
    ensures forall s :: s in Upcoming(shows, dateTime, now) <==> s in shows && dateTime(s) >= now
  {
    if shows != [] {
      UpcomingContents(shows[1..], dateTime, now);
      assert shows == [shows[0]] + shows[1..];
    }
  }

  /** The positions of the PAID bookings. */
  function PaidIndices(bookings: seq<BookingRow>): set<int> {
    set i | 0 <= i < |bookings| && bookings[i].status == Paid
  }

  /** The sum over all bookings of the amount of those that are PAID. */
  function PaidAmountSum(bookings: seq<BookingRow>): int {
    if bookings == [] then 0
    else (if bookings[0].status == Paid then bookings[0].amount else 0) + PaidAmountSum(bookings[1..])
  }

  /** Appending a row adds its position to the PAID positions exactly when it is PAID. */
  lemma PaidIndicesSnocSet(init: seq<BookingRow>, last: BookingRow)
    ensures PaidIndices(init + [last]) == PaidIndices(init) + (if last.status == Paid then {|init|} else {})
  {
    var bookings := init + [last];
    forall i | 0 <= i < |init|
      ensures bookings[i] == init[i]
    {
    }
  }

  /** So appending a row adds one PAID position when it is PAID and none otherwise. */
  lemma PaidIndicesSnoc(init: seq<BookingRow>, last: BookingRow)
    ensures |PaidIndices(init + [last])| == |PaidIndices(init)| + (if last.status == Paid then 1 else 0)
  {
    PaidIndicesSnocSet(init, last);
    assert |init| !in PaidIndices(init);
  }

  /** The PAID query returns one row per PAID position. */
  lemma {:induction false} PaidOnlyCount(bookings: seq<BookingRow>)
    ensures |PaidOnly(bookings)| == |PaidIndices(bookings)|
  {
    if bookings != [] {
      var n := |bookings| - 1;
      var init := bookings[..n];
      var last := bookings[n];
      PaidOnlyCount(init);
      assert bookings == init + [last];
      PaidOnlyAppend(init, [last]);
      assert [last][1..] == [];
      PaidIndicesSnoc(init, last);
    }
  }

  /** The revenue of the PAID rows is the sum of the PAID amounts. */
  lemma {:induction false} RevenueOfPaid(bookings: seq<BookingRow>)
    ensures Revenue(PaidOnly(bookings)) == PaidAmountSum(bookings)
  {
    if bookings != [] {
      RevenueOfPaid(bookings[1..]);
      if bookings[0].status == Paid {
        assert ([bookings[0]] + PaidOnly(bookings[1..]))[1..] == PaidOnly(bookings[1..]);
      }
    }
  }

  /**
   * `getDashboardData`: the number of PAID bookings, the sum of their amounts, the
   * shows at or after now, and the user count.
   */
  function GetDashboardData(bookings: seq<BookingRow>, shows: seq<ShowInfo>, userCount: nat, now: int)
    : (d: DashboardData)
    ensures d.totalBookings == |PaidIndices(bookings)|
    ensures d.totalRevenue == PaidAmountSum(bookings)
    ensures forall s :: s in d.activeShows <==> s in shows && s.showDateTime >= now
    ensures d.totalUser == userCount
  {
    PaidOnlyCount(bookings);
    RevenueOfPaid(bookings);
    UpcomingContents(shows, (s: ShowInfo) => s.showDateTime, now);
    var paid := PaidOnly(bookings);
    DashboardData(|paid|, Revenue(paid), Upcoming(shows, (s: ShowInfo) => s.showDateTime, now), userCount)
  }

  /** Dashboard totals over two batches of rows are the sums of the totals of each batch. */
  lemma DashboardTotalsAdd(a: seq<BookingRow>, b: seq<BookingRow>, shows: seq<ShowInfo>, userCount: nat, now: int)
    ensures var d := GetDashboardData(a + b, shows, userCount, now);
      d.totalBookings == GetDashboardData(a, shows, userCount, now).totalBookings
                         + GetDashboardData(b, shows, userCount, now).totalBookings &&
      d.totalRevenue == GetDashboardData(a, shows, userCount, now).totalRevenue
                        + GetDashboardData(b, shows, userCount, now).totalRevenue
  {
    PaidOnlyAppend(a, b);
    RevenueAppend(PaidOnly(a), PaidOnly(b));
  }

  /** A single booking counts once and adds its amount iff it is PAID; without PAID bookings both totals are 0. */
  lemma {:induction false} DashboardCountsPaidOnly(bookings: seq<BookingRow>, shows: seq<ShowInfo>, userCount: nat, now: int)
    ensures var d := GetDashboardData(bookings, shows, userCount, now);
      (forall i :: 0 <= i < |bookings| ==> bookings[i].status != Paid) ==> d.totalBookings == 0 && d.totalRevenue == 0
    ensures forall b :: GetDashboardData([b], shows, userCount, now).totalBookings == (if b.status == Paid then 1 else 0)
    ensures forall b :: GetDashboardData([b], shows, userCount, now).totalRevenue == (if b.status == Paid then b.amount else 0)
  {
    PaidOnlyContents(bookings);
    if PaidOnly(bookings) != [] {
      assert PaidOnly(bookings)[0] in PaidOnly(bookings);
    }
    forall b ensures PaidOnly([b]) == if b.status == Paid then [b] else [] {
      assert [b][1..] == [];
    }
    forall b ensures Revenue([b]) == b.amount {
      assert [b][1..] == [];
    }
  }

  /**
   * The seat map the nested `forEach` builds from a show's PAID bookings: each booking
   * whose seats are an array writes its user id on every one of its seats, later
   * bookings overwriting earlier ones.
   */
  function PaidSeatMap(bookings: seq<BookingRow>): (m: map<SeatId, UserId>)
    ensures m.Values <= UserIds(bookings)
  {
    if bookings == [] then map[]
    else
      var init := bookings[..|bookings| - 1];
      var m := PaidSeatMap(init);
      var last := bookings[|bookings| - 1];
      assert UserIds(bookings) == UserIds(init) + {last.userId} by {
        assert bookings == init + [last];
      }
      if last.bookedSeats.Some? then AssignSeats(m, last.bookedSeats.value, last.userId) else m
  }

  /** The user ids of the bookings. */
  function UserIds(bookings: seq<BookingRow>): set<UserId> {
    set i | 0 <= i < |bookings| :: bookings[i].userId
  }

  /** A booking of `bookings` lists seat `s` as an array element. */
  predicate Lists(bookings: seq<BookingRow>, i: int, s: SeatId) {
    0 <= i < |bookings| && bookings[i].bookedSeats.Some? && s in bookings[i].bookedSeats.value
  }

  /**
   * The keys of the paid seat map are exactly the seats listed by bookings with an
   * array of seats, and a seat maps to the user of the last booking that lists it.
   */
  lemma {:induction false} PaidSeatMapHolders(bookings: seq<BookingRow>, s: SeatId)
    ensures s in PaidSeatMap(bookings) <==> exists i :: Lists(bookings, i, s)
    ensures forall i :: Lists(bookings, i, s) && (forall j :: i < j < |bookings| ==> !Lists(bookings, j, s)) ==>
      s in PaidSeatMap(bookings) && PaidSeatMap(bookings)[s] == bookings[i].userId
  {
    if bookings != [] {
      var n := |bookings| - 1;
      var init := bookings[..n];
      var last := bookings[n];
      PaidSeatMapHolders(init, s);
      var before := PaidSeatMap(init);
      var after := PaidSeatMap(bookings);
      assert forall i :: 0 <= i < n ==> (Lists(init, i, s) <==> Lists(bookings, i, s));
      if Lists(bookings, n, s) {
        assert after == AssignSeats(before, last.bookedSeats.value, last.userId);
        assert s in after && after[s] == last.userId;
      } else {
        assert s in after <==> s in before;
        assert s in after ==> after[s] == before[s];
        assert (exists i :: Lists(bookings, i, s)) ==> exists i :: Lists(init, i, s);
      }
    }
  }

  /** The nested `forEach` of `getAllShows` for one show. */
  method PaidOccupiedSeats(bookings: seq<BookingRow>) returns (m: map<SeatId, UserId>)
    ensures m == PaidSeatMap(bookings)
  {
    m := map[];
    var i := 0;
    while i < |bookings|
      invariant 0 <= i <= |bookings|
      invariant m == PaidSeatMap(bookings[..i])
    {
      assert bookings[..i + 1][..i] == bookings[..i];
      var booking := bookings[i];
      if booking.bookedSeats.Some? {
        m := WriteSeats(m, booking.bookedSeats.value, booking.userId);
      }
      i := i + 1;
    }
    assert bookings[..i] == bookings;
  }

  /** The rows of `getAllShows`' query: the shows at or after `now`, by ascending date. */
  function UpcomingInOrder(shows: seq<ShowRow>, now: int): (rows: seq<ShowRow>)
    ensures |rows| <= |shows|
  {
    UpcomingContents(shows, (s: ShowRow) => s.info.showDateTime, now);
    SortBy(Upcoming(shows, (s: ShowRow) => s.info.showDateTime, now), (s: ShowRow) => s.info.showDateTime)
  }

  /** The query's rows are exactly the upcoming shows, each once per stored copy, in ascending date order. */
  lemma UpcomingInOrderContents(shows: seq<ShowRow>, now: int)
    ensures forall r :: r in UpcomingInOrder(shows, now) <==> r in shows && r.info.showDateTime >= now
    ensures forall i, j :: 0 <= i < j < |UpcomingInOrder(shows, now)| ==>
      UpcomingInOrder(shows, now)[i].info.showDateTime <= UpcomingInOrder(shows, now)[j].info.showDateTime
  {
    var dateTime := (s: ShowRow) => s.info.showDateTime;
    UpcomingContents(shows, dateTime, now);
    var rows := UpcomingInOrder(shows, now);
    assert multiset(rows) == multiset(Upcoming(shows, dateTime, now));
    assert forall r :: r in rows <==> r in multiset(rows);
    assert forall r :: r in Upcoming(shows, dateTime, now) <==> r in multiset(Upcoming(shows, dateTime, now));
  }

  /**
   * `getAllShows`: the upcoming shows in ascending date order, each with its bookings
   * removed and its seat map rebuilt from its PAID bookings only.
   */
  method GetAllShows(shows: seq<ShowRow>, now: int) returns (listed: seq<ListedShow>)
    ensures |listed| == |UpcomingInOrder(shows, now)|
    ensures forall i :: 0 <= i < |listed| ==>
      listed[i] == ListedShow(UpcomingInOrder(shows, now)[i].info,
                              PaidSeatMap(PaidOnly(UpcomingInOrder(shows, now)[i].bookings)))
  {
    var rows := UpcomingInOrder(shows, now);
    listed := [];
    var k := 0;
    while k < |rows|
      invariant 0 <= k <= |rows|
      invariant |listed| == k
      invariant forall i :: 0 <= i < k ==> listed[i] == ListedShow(rows[i].info, PaidSeatMap(PaidOnly(rows[i].bookings)))
    {
      var paid := PaidOccupiedSeats(PaidOnly(rows[k].bookings));
      listed := listed + [ListedShow(rows[k].info, paid)];
      k := k + 1;
    }
  }

  /** `getAllbookings`: the PAID bookings, newest first, and no others. */
  function GetAllBookings(bookings: seq<BookingRow>): (r: seq<BookingRow>)
    ensures forall b :: b in r <==> b in bookings && b.status == Paid
    ensures forall i, j :: 0 <= i < j < |r| ==> r[i].createdAt >= r[j].createdAt
    ensures multiset(r) == multiset(PaidOnly(bookings))
  {
    PaidOnlyContents(bookings);
    var r := SortBy(PaidOnly(bookings), (b: BookingRow) => -b.createdAt);
    assert forall b :: b in r <==> b in multiset(r);
    r
  }
}
