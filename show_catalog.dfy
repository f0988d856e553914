/**
 * `addShow` of server/controllers/showController.js: a movie unknown to the catalog is
 * fetched from TMDB and stored, then one show per (date, time) pair of the input is
 * inserted. A movie already in the catalog leaves everything as it is.
 */
module ShowCatalog {
  import opened Wrappers
  import opened Bookings

  /** The fields of TMDB's movie details that the stored movie copies; `tagline` may be missing. */
  datatype TmdbMovie = TmdbMovie(title: string, overview: string, tagline: Option<string>, runtime: int)

  /** A stored movie document. */
  datatype Movie = Movie(id: string, title: string, overview: string, tagline: string, runtime: int)

  /** One element of `showsInput`; either field may be missing from the request body. */
  datatype ShowInput = ShowInput(date: Option<string>, time: Option<seq<string>>)

  /** A show document as `addShow` builds it; the date-time is kept as its source text. */
  datatype NewShow = NewShow(movie: string, showDateTime: string, showPrice: int,
                             occupiedSeats: map<SeatId, UserId>)

  /** The reply: none at all, success, or the caught error. */
  datatype AddShowReply = NoReply | ShowAdded | Failed

  /** `movieApiData.tagline || ''`: a missing (or empty) tagline is stored as "". */
  function TaglineOf(tagline: Option<string>): (t: string)
    ensures tagline.None? ==> t == ""
    ensures tagline.Some? ==> t == tagline.value
  {
    if tagline.Some? && tagline.value != "" then tagline.value else ""
  }

  function MovieOf(movieId: string, data: TmdbMovie): (m: Movie)
    ensures m.id == movieId && m.title == data.title && m.tagline == TaglineOf(data.tagline)
  {
    Movie(movieId, data.title, data.overview, TaglineOf(data.tagline), data.runtime)
  }

  /** `${showDate}`: a missing date renders as the text "undefined". */
  function DateText(date: Option<string>): string {
    if date.Some? then date.value else "undefined"
  }

  /** The shows of one input element, one per time in order; `None` when `time` is missing (`forEach` of undefined throws). */
  function ShowsOfInput(movieId: string, input: ShowInput, showPrice: int): Option<seq<NewShow>>
  {
    if input.time.None? then None
    else Some(seq(|input.time.value|, j requires 0 <= j < |input.time.value| =>
      NewShow(movieId, DateText(input.date) + "T" + input.time.value[j], showPrice, map[])))
  }

  /** `showsToCreate` for the whole input; `None` when the nested loops throw. */
  function Expansion(movieId: string, inputs: seq<ShowInput>, showPrice: int): (r: Option<seq<NewShow>>)
    ensures r.Some? ==> |r.value| == PairCount(inputs)
  {
    if inputs == [] then Some([])
    else
      match Expansion(movieId, inputs[..|inputs| - 1], showPrice)
      case None => None
      case Some(init) =>
        match ShowsOfInput(movieId, inputs[|inputs| - 1], showPrice)
        case None => None
        case Some(last) => Some(init + last)
  }

  /** The number of (date, time) pairs of the input. */
  function PairCount(inputs: seq<ShowInput>): nat {
    if inputs == [] then 0
    else PairCount(inputs[..|inputs| - 1]) + (match inputs[|inputs| - 1].time case None => 0 case Some(t) => |t|)
  }

  /** The expansion throws iff some input element has no `time` list. */
  lemma {:induction false} ExpansionFails(movieId: string, inputs: seq<ShowInput>, showPrice: int)
    ensures Expansion(movieId, inputs, showPrice).None? <==> exists i :: 0 <= i < |inputs| && inputs[i].time.None?
  {
    if inputs != [] {
      var init := inputs[..|inputs| - 1];
      ExpansionFails(movieId, init, showPrice);
      assert forall i :: 0 <= i < |init| ==> init[i] == inputs[i];
      if exists i :: 0 <= i < |inputs| && inputs[i].time.None? {
        var i :| 0 <= i < |inputs| && inputs[i].time.None?;
        if i < |init| {
          assert init[i].time.None?;
        }
      }
    }
  }

  /**
   * Every created show is of the given movie at the given price with no seats held, and
   * there is one per (date, time) pair.
   */
  lemma {:induction false} ExpansionShape(movieId: string, inputs: seq<ShowInput>, showPrice: int)
    requires Expansion(movieId, inputs, showPrice).Some?
    ensures var shows := Expansion(movieId, inputs, showPrice).value;
      |shows| == PairCount(inputs) &&
      forall k :: 0 <= k < |shows| ==>
        shows[k].movie == movieId && shows[k].showPrice == showPrice && shows[k].occupiedSeats == map[]
  {
    if inputs != [] {
      ExpansionShape(movieId, inputs[..|inputs| - 1], showPrice);
    }
  }

  /** Dates in input order: the shows of `a + b` are those of `a` followed by those of `b`. */
  lemma {:induction false} ExpansionAppend(movieId: string, a: seq<ShowInput>, b: seq<ShowInput>, showPrice: int)
    requires Expansion(movieId, a, showPrice).Some? && Expansion(movieId, b, showPrice).Some?
    ensures Expansion(movieId, a + b, showPrice) ==
      Some(Expansion(movieId, a, showPrice).value + Expansion(movieId, b, showPrice).value)
  {
    if b == [] {
      assert a + b == a;
      assert Expansion(movieId, a, showPrice).value + [] == Expansion(movieId, a, showPrice).value;
    } else {
      var init := b[..|b| - 1];
      assert (a + b)[..|a + b| - 1] == a + init;
      assert (a + b)[|a + b| - 1] == b[|b| - 1];
      var last := ShowsOfInput(movieId, b[|b| - 1], showPrice);
      assert Expansion(movieId, init, showPrice).Some? && last.Some?;
      ExpansionAppend(movieId, a, init, showPrice);
      var ea := Expansion(movieId, a, showPrice).value;
      var ei := Expansion(movieId, init, showPrice).value;
      assert (ea + ei) + last.value == ea + (ei + last.value);
    }
  }

  /** Times in order: one input element gives one show per time, its text `date + "T" + time`. */
  lemma ExpansionOfOne(movieId: string, input: ShowInput, showPrice: int)
    requires input.time.Some?
    ensures var shows := Expansion(movieId, [input], showPrice);
      shows.Some? && |shows.value| == |input.time.value| &&
      forall j :: 0 <= j < |input.time.value| ==>
        shows.value[j].showDateTime == DateText(input.date) + "T" + input.time.value[j]
  {
    assert [input][..0] == [];
  }

  /** The nested `forEach` that fills `showsToCreate`; `None` when it throws. */
  method BuildShowsToCreate(movieId: string, inputs: seq<ShowInput>, showPrice: int) returns (r: Option<seq<NewShow>>)
    ensures r == Expansion(movieId, inputs, showPrice)
  {
    var showsToCreate: seq<NewShow> := [];
    var i := 0;
    while i < |inputs|
      invariant 0 <= i <= |inputs|
      invariant Expansion(movieId, inputs[..i], showPrice) == Some(showsToCreate)
    {
      assert inputs[..i + 1][..i] == inputs[..i];
      var show := inputs[i];
      var showDate := DateText(show.date);
      if show.time.None? {
        assert Expansion(movieId, inputs[..i + 1], showPrice).None?;
        ExpansionPrefixFails(movieId, inputs, i + 1, showPrice);
        return None;
      }
      var times := show.time.value;
      var j := 0;
      ghost var before := showsToCreate;
      while j < |times|
        invariant 0 <= j <= |times|
        invariant showsToCreate == before + ShowsOfInput(movieId, show, showPrice).value[..j]
      {
        showsToCreate := showsToCreate + [NewShow(movieId, showDate + "T" + times[j], showPrice, map[])];
        j := j + 1;
      }
      assert ShowsOfInput(movieId, show, showPrice).value[..j] == ShowsOfInput(movieId, show, showPrice).value;
      assert inputs[..i + 1][i] == show;
      i := i + 1;
    }
    assert inputs[..i] == inputs;
    r := Some(showsToCreate);
  }

  /** Once a prefix of the input throws, the whole input does. */
  lemma {:induction false} ExpansionPrefixFails(movieId: string, inputs: seq<ShowInput>, n: nat, showPrice: int)
    requires n <= |inputs| && Expansion(movieId, inputs[..n], showPrice).None?
    ensures Expansion(movieId, inputs, showPrice).None?
  {
    if n < |inputs| {
      var init := inputs[..|inputs| - 1];
      assert init[..n] == inputs[..n];
      ExpansionPrefixFails(movieId, init, n, showPrice);
    } else {
      assert inputs[..n] == inputs;
    }
  }

  class Catalog {
    /** The stored movies by id. */
    var movies: map<string, Movie>
    /** The stored shows, in insertion order. */
    var shows: seq<NewShow>

    constructor(movies0: map<string, Movie>, shows0: seq<NewShow>)
      ensures movies == movies0 && shows == shows0
    {
      movies := movies0;
      shows := shows0;
    }

    /**
     * `addShow`. `details` is TMDB's answer for `movieId` (`None` when a request fails).
     * A known movie gets no reply and changes nothing; otherwise the movie is stored first,
     * and the shows are inserted only when the expansion does not throw.
     */
    method AddShow(movieId: string, showsInput: Option<seq<ShowInput>>, showPrice: int, details: Option<TmdbMovie>)
      returns (reply: AddShowReply)
      modifies this
      ensures movieId in old(movies) ==> reply == NoReply && movies == old(movies) && shows == old(shows)
      ensures movieId !in old(movies) && details.None? ==>
        reply == Failed && movies == old(movies) && shows == old(shows)
      ensures movieId !in old(movies) && details.Some? ==>
        movies == old(movies)[movieId := MovieOf(movieId, details.value)]
      ensures movieId !in old(movies) && details.Some? ==>
        var created := if showsInput.Some? then Expansion(movieId, showsInput.value, showPrice) else None;
        if created.None? then reply == Failed && shows == old(shows)
        else reply == ShowAdded && shows == old(shows) + created.value
    {
      if movieId in movies {
        return NoReply;
      }
      if details.None? {
        return Failed;
      }
      movies := movies[movieId := MovieOf(movieId, details.value)];
      if showsInput.None? {
        return Failed;
      }
      var showsToCreate := BuildShowsToCreate(movieId, showsInput.value, showPrice);
      if showsToCreate.None? {
        return Failed;
      }
      if |showsToCreate.value| > 0 {
        shows := shows + showsToCreate.value;
      }
      reply := ShowAdded;
    }
  }
}
