/**
 * The admin form of client/src/pages/admin/AddShows.jsx: the date -> times selection
 * built from `datetime-local` input, the removal of a time, the submit checks and the
 * request body they produce, and the seat-layout sliders.
 */
module AddShows {
  import opened Wrappers
  import opened JsText
  import opened Lists
  import opened ShowCatalog

  /**
   * One key of the `dateTimeSelection` object. The object is a list of entries in key
   * insertion order, which is the order `Object.entries` reports them in.
   */
  datatype Entry = Entry(date: string, times: seq<string>)

  type Selection = seq<Entry>

  /** One element of the request's `showsInput`: the date and time a `Date` is built from. */
  datatype PayloadShow = PayloadShow(date: string, time: string)

  /** The request body of `handleSubmit`; `showPrice` is `Number(text)`, `None` for NaN. */
  datatype Payload = Payload(movieId: string, showsInput: seq<PayloadShow>, showPrice: Option<nat>,
                             rows: int, seatsPerRow: int)

  const DEFAULT_ROWS: int := 10
  const DEFAULT_SEATS_PER_ROW: int := 9
  const MIN_SLIDER: int := 1
  const MAX_SLIDER: int := 20

  predicate HasDate(sel: Selection, date: string) {
    exists i :: 0 <= i < |sel| && sel[i].date == date
  }

  /** `sel[date]`, `None` for `undefined`; the first entry with that key. */
  function Lookup(sel: Selection, date: string): (r: Option<seq<string>>)
    ensures r.Some? <==> HasDate(sel, date)
    ensures r.Some? ==> exists i :: 0 <= i < |sel| && sel[i] == Entry(date, r.value)
  {
    if sel == [] then None
    else if sel[0].date == date then Some(sel[0].times)
    else
      var r := Lookup(sel[1..], date);
      assert forall i :: 1 <= i < |sel| ==> sel[1..][i - 1] == sel[i];
      r
  }

  /** `{ ...sel, [date]: times }`: an existing key keeps its place, a new key goes last. */
  function Put(sel: Selection, date: string, times: seq<string>): (r: Selection)
    ensures !HasDate(sel, date) ==> r == sel + [Entry(date, times)]
  {
    if sel == [] then [Entry(date, times)]
    else if sel[0].date == date then [Entry(date, times)] + sel[1..]
    else
      var rest := Put(sel[1..], date, times);
      assert !HasDate(sel, date) ==> !HasDate(sel[1..], date) by {
        if HasDate(sel[1..], date) {
          var i :| 0 <= i < |sel[1..]| && sel[1..][i].date == date;
          assert sel[i + 1].date == date;
        }
      }
      assert sel == [sel[0]] + sel[1..];
      [sel[0]] + rest
  }

  /** After `Put`, `date` maps to `times` and every other date to what it mapped to before. */
  lemma {:induction false} PutLookup(sel: Selection, date: string, times: seq<string>, d: string)
    ensures Lookup(Put(sel, date, times), d) == if d == date then Some(times) else Lookup(sel, d)
  {
    if sel != [] && sel[0].date != date {
      PutLookup(sel[1..], date, times, d);
    }
  }

  /** `Put` keeps the entries of the other dates and adds only the written one. */
  lemma {:induction false} PutEntries(sel: Selection, date: string, times: seq<string>)
    ensures forall e :: e in Put(sel, date, times) ==> e in sel || e == Entry(date, times)
    ensures HasDate(sel, date) ==> |Put(sel, date, times)| == |sel|
  {
    if sel != [] && sel[0].date != date {
      PutEntries(sel[1..], date, times);
      if HasDate(sel, date) {
        var i :| 0 <= i < |sel| && sel[i].date == date;
        assert sel[1..][i - 1].date == date;
      }
    }
  }

  /** `const { [date]: _, ...rest } = sel`: the key goes, the others keep their order. */
  function Delete(sel: Selection, date: string): (r: Selection)
    ensures forall e :: e in r ==> e in sel && e.date != date
  {
    if sel == [] then []
    else if sel[0].date == date then Delete(sel[1..], date)
    else [sel[0]] + Delete(sel[1..], date)
  }

  /** After `Delete`, `date` is no key and every other date maps to what it mapped to before. */
  lemma {:induction false} DeleteLookup(sel: Selection, date: string, d: string)
    ensures Lookup(Delete(sel, date), d) == if d == date then None else Lookup(sel, d)
  {
    if sel != [] {
      DeleteLookup(sel[1..], date, d);
    }
  }

  /** Keys are distinct and no date maps to an empty list. */
  predicate WellFormed(sel: Selection) {
    (forall i, j :: 0 <= i < j < |sel| ==> sel[i].date != sel[j].date) &&
    (forall i :: 0 <= i < |sel| ==> sel[i].times != [])
  }

  /**
   * `handleDateTimeAdd`: the input is split at 'T' into date and time; empty input or an
   * empty part leaves the selection alone, as does a time the date already lists;
   * otherwise the time is appended to that date's list.
   */
  function AddDateTime(sel: Selection, input: string): (r: Selection)
    ensures WellFormed(sel) ==> WellFormed(r)
    ensures |r| == |sel| || |r| == |sel| + 1
  {
    if input == "" then sel
    else
      var parts := Split(input, 'T');
      var date := parts[0];
      var time := if |parts| >= 2 then parts[1] else "";
      if date == "" || time == "" then sel
      else
        var times := Lookup(sel, date).GetOr([]);
        if time in times then sel
        else
          PutEntries(sel, date, times + [time]);
          if WellFormed(sel) then
            PutWellFormed(sel, date, times + [time]);
            Put(sel, date, times + [time])
          else
            Put(sel, date, times + [time])
  }

  /**
   * `handleRemoveTime`: the time is filtered out of the date's list, and the key is
   * dropped when nothing is left. `None` when the date is not a key (`filter` of undefined throws).
   */
  function RemoveTime(sel: Selection, date: string, time: string): (r: Option<Selection>)
    ensures r.Some? <==> HasDate(sel, date)
  {
    match Lookup(sel, date)
    case None => None
    case Some(times) =>
      var filtered := RemoveAll(times, time);
      if filtered == [] then Some(Delete(sel, date)) else Some(Put(sel, date, filtered))
  }

  /** How a `datetime-local` value that `AddDateTime` accepts is put together. */
  predicate IsDateTimeInput(input: string, date: string, time: string) {
    date != "" && time != "" && 'T' !in date && 'T' !in time && input == date + "T" + time
  }

  /** The date and time `AddDateTime` reads off such an input. */
  lemma ParseDateTimeInput(input: string, date: string, time: string)
    requires IsDateTimeInput(input, date, time)
    ensures Split(input, 'T')[0] == date && |Split(input, 'T')| >= 2 && Split(input, 'T')[1] == time
  {
    SplitAtFirst(date, 'T', time);
    SplitWithoutSeparator(time, 'T');
  }

  /** Adding records the time under its date and touches no other date. */
  lemma AddDateTimeEffect(sel: Selection, input: string, date: string, time: string)
    requires IsDateTimeInput(input, date, time)
    ensures var r := AddDateTime(sel, input);
      Lookup(r, date).Some? && time in Lookup(r, date).value &&
      (forall d :: d != date ==> Lookup(r, d) == Lookup(sel, d))
    ensures var times := Lookup(sel, date).GetOr([]);
      time in times ==> AddDateTime(sel, input) == sel
    ensures var times := Lookup(sel, date).GetOr([]);
      time !in times ==> Lookup(AddDateTime(sel, input), date) == Some(times + [time])
  {
    ParseDateTimeInput(input, date, time);
    var times := Lookup(sel, date).GetOr([]);
    forall d ensures Lookup(Put(sel, date, times + [time]), d) ==
      if d == date then Some(times + [time]) else Lookup(sel, d) {
      PutLookup(sel, date, times + [time], d);
    }
  }

  /** Input without both a date and a time leaves the selection unchanged. */
  lemma AddDateTimeIgnoresIncompleteInput(sel: Selection, input: string)
    requires input == "" || 'T' !in input || Split(input, 'T')[0] == "" || (|Split(input, 'T')| >= 2 && Split(input, 'T')[1] == "")
    ensures AddDateTime(sel, input) == sel
  {
    if input != "" && 'T' !in input {
      SplitWithoutSeparator(input, 'T');
    }
  }

  /** Writing a non-empty list keeps keys distinct and lists non-empty. */
  lemma {:induction false} PutWellFormed(sel: Selection, date: string, times: seq<string>)
    requires WellFormed(sel) && times != []
    ensures WellFormed(Put(sel, date, times))
  {
    if sel != [] && sel[0].date != date {
      var tail := sel[1..];
      assert forall i :: 0 <= i < |tail| ==> tail[i] == sel[i + 1];
      PutWellFormed(tail, date, times);
      PutEntries(tail, date, times);
      var rest := Put(tail, date, times);
      forall i | 0 <= i < |rest| ensures rest[i].date != sel[0].date {
        assert rest[i] in rest;
      }
      var r := [sel[0]] + rest;
      forall i, j | 0 <= i < j < |r| ensures r[i].date != r[j].date {
        if i == 0 {
          assert r[j] == rest[j - 1];
        } else {
          assert r[i] == rest[i - 1] && r[j] == rest[j - 1];
        }
      }
    }
  }

  /** Deleting a key keeps keys distinct and lists non-empty. */
  lemma {:induction false} DeleteWellFormed(sel: Selection, date: string)
    requires WellFormed(sel)
    ensures WellFormed(Delete(sel, date))
  {
    if sel != [] {
      var tail := sel[1..];
      assert forall i :: 0 <= i < |tail| ==> tail[i] == sel[i + 1];
      DeleteWellFormed(tail, date);
      if sel[0].date != date {
        var rest := Delete(tail, date);
        forall i | 0 <= i < |rest| ensures rest[i].date != sel[0].date {
          assert rest[i] in rest;
        }
        var r := [sel[0]] + rest;
        forall i, j | 0 <= i < j < |r| ensures r[i].date != r[j].date {
          if i == 0 {
            assert r[j] == rest[j - 1];
          } else {
            assert r[i] == rest[i - 1] && r[j] == rest[j - 1];
          }
        }
      }
    }
  }

  /**
   * Removing keeps the selection well formed: the date keeps its other times, or is
   * dropped when none is left, and no other date changes.
   */
  lemma RemoveTimeWellFormed(sel: Selection, date: string, time: string)
    requires WellFormed(sel) && HasDate(sel, date)
    ensures WellFormed(RemoveTime(sel, date, time).value)
    ensures var filtered := RemoveAll(Lookup(sel, date).value, time);
      Lookup(RemoveTime(sel, date, time).value, date) == if filtered == [] then None else Some(filtered)
    ensures forall d :: d != date ==> Lookup(RemoveTime(sel, date, time).value, d) == Lookup(sel, d)
  {
    var filtered := RemoveAll(Lookup(sel, date).value, time);
    if filtered == [] {
      DeleteWellFormed(sel, date);
      forall d ensures Lookup(Delete(sel, date), d) == if d == date then None else Lookup(sel, d) {
        DeleteLookup(sel, date, d);
      }
    } else {
      PutWellFormed(sel, date, filtered);
      forall d ensures Lookup(Put(sel, date, filtered), d) == if d == date then Some(filtered) else Lookup(sel, d) {
        PutLookup(sel, date, filtered, d);
      }
    }
  }

  /** Writing back the list a date already has changes nothing. */
  lemma {:induction false} PutSame(sel: Selection, date: string)
    requires HasDate(sel, date)
    ensures Put(sel, date, Lookup(sel, date).value) == sel
  {
    if sel[0].date != date {
      var tail := sel[1..];
      var i :| 0 <= i < |sel| && sel[i].date == date;
      assert tail[i - 1].date == date;
      PutSame(tail, date);
      assert sel == [sel[0]] + tail;
    } else {
      assert sel == [sel[0]] + sel[1..];
    }
  }

  /** The second of two writes to the same date wins. */
  lemma {:induction false} PutPut(sel: Selection, date: string, a: seq<string>, b: seq<string>)
    ensures Put(Put(sel, date, a), date, b) == Put(sel, date, b)
  {
    if sel != [] && sel[0].date != date {
      PutPut(sel[1..], date, a, b);
    }
  }

  /** Deleting a key appended to a selection without it gives the selection back. */
  lemma {:induction false} DeleteAppended(sel: Selection, date: string, times: seq<string>)
    requires !HasDate(sel, date)
    ensures Delete(sel + [Entry(date, times)], date) == sel
  {
    if sel == [] {
      assert [] + [Entry(date, times)] == [Entry(date, times)];
    } else {
      assert (sel + [Entry(date, times)])[1..] == sel[1..] + [Entry(date, times)];
      assert forall i :: 0 <= i < |sel[1..]| ==> sel[1..][i] == sel[i + 1];
      DeleteAppended(sel[1..], date, times);
      assert sel == [sel[0]] + sel[1..];
    }
  }

  /** Removing the time just appended to a listed date writes the old list back. */
  lemma RemoveAfterAppend(sel: Selection, date: string, time: string)
    requires WellFormed(sel) && HasDate(sel, date) && time !in Lookup(sel, date).value
    ensures RemoveTime(Put(sel, date, Lookup(sel, date).value + [time]), date, time) == Some(sel)
  {
    var times := Lookup(sel, date).value;
    PutLookup(sel, date, times + [time], date);
    RemoveAllAppend(times, [time], time);
    assert RemoveAll([time], time) == [];
    RemoveAllAbsent(times, time);
    assert RemoveAll(times + [time], time) == times;
    var i :| 0 <= i < |sel| && sel[i] == Entry(date, times);
    assert times != [];
    PutPut(sel, date, times + [time], times);
    PutSame(sel, date);
  }

  /** Removing the only time of a date just added drops the key again. */
  lemma RemoveAfterNewDate(sel: Selection, date: string, time: string)
    requires !HasDate(sel, date)
    ensures RemoveTime(Put(sel, date, [time]), date, time) == Some(sel)
  {
    PutLookup(sel, date, [time], date);
    assert RemoveAll([time], time) == [];
    DeleteAppended(sel, date, [time]);
  }

  /** Adding a time the date does not list and then removing it gives the selection back. */
  lemma AddThenRemove(sel: Selection, input: string, date: string, time: string)
    requires WellFormed(sel) && IsDateTimeInput(input, date, time)
    requires !(HasDate(sel, date) && time in Lookup(sel, date).value)
    ensures RemoveTime(AddDateTime(sel, input), date, time) == Some(sel)
  {
    ParseDateTimeInput(input, date, time);
    if HasDate(sel, date) {
      assert AddDateTime(sel, input) == Put(sel, date, Lookup(sel, date).value + [time]);
      RemoveAfterAppend(sel, date, time);
    } else {
      assert AddDateTime(sel, input) == Put(sel, date, [] + [time]);
      assert [] + [time] == [time];
      RemoveAfterNewDate(sel, date, time);
    }
  }

  /** `Object.entries(sel).flatMap(([date, times]) => times.map(time => ...))`. */
  function ShowsInput(sel: Selection): (r: seq<PayloadShow>)
    ensures |r| == PairCount(sel)
  {
    if sel == [] then []
    else
      seq(|sel[0].times|, j requires 0 <= j < |sel[0].times| => PayloadShow(sel[0].date, sel[0].times[j]))
      + ShowsInput(sel[1..])
  }

  /** The number of (date, time) pairs of the selection. */
  function PairCount(sel: Selection): nat {
    if sel == [] then 0 else |sel[0].times| + PairCount(sel[1..])
  }

  /** `showsInput` has one element per (date, time) pair and no other. */
  lemma {:induction false} ShowsInputPairs(sel: Selection, p: PayloadShow)
    ensures |ShowsInput(sel)| == PairCount(sel)
    ensures p in ShowsInput(sel) <==> exists i :: 0 <= i < |sel| && sel[i].date == p.date && p.time in sel[i].times
  {
    if sel != [] {
      ShowsInputPairs(sel[1..], p);
      var head := seq(|sel[0].times|, j requires 0 <= j < |sel[0].times| => PayloadShow(sel[0].date, sel[0].times[j]));
      assert forall i :: 1 <= i < |sel| ==> sel[1..][i - 1] == sel[i];
      if p in head {
        var j :| 0 <= j < |head| && head[j] == p;
        assert sel[0].times[j] == p.time;
      }
      if sel[0].date == p.date && p.time in sel[0].times {
        var j :| 0 <= j < |sel[0].times| && sel[0].times[j] == p.time;
        assert head[j] == p;
      }
    }
  }

  /** A field of a JSON object as the server receives it: a text or an array of texts. */
  datatype JsonField = Text(text: string) | Texts(texts: seq<string>)

  /** A JSON object of the request body, by key. */
  type JsonObject = map<string, JsonField>

  /**
   * The object `{ showDateTime }` the client sends for one (date, time) pair. The `Date`
   * goes over the wire as its date-time text, represented by the pair it is built from.
   */
  function SentElement(p: PayloadShow): (o: JsonObject)
    ensures o.Keys == {"showDateTime"}
  {
    map["showDateTime" := Text(p.date + "T" + p.time)]
  }

  /** The text a template literal renders a field as; an array joins its items with ','. */
  function FieldText(f: JsonField): string {
    match f
    case Text(t) => t
    case Texts(ts) => Join(ts, ",")
  }

  /**
   * What `addShow` reads off one element: `show.date` (`None` for a missing key) and the
   * array `show.time` whose `forEach` it calls (`None` when the key is missing or holds no
   * array, where that call throws).
   */
  function ServerRead(o: JsonObject): (r: ShowInput)
    ensures r.date.Some? <==> "date" in o
    ensures r.time.Some? <==> "time" in o && o["time"].Texts?
    ensures r.time.Some? ==> r.time.value == o["time"].texts
  {
    ShowInput(if "date" in o then Some(FieldText(o["date"])) else None,
              if "time" in o && o["time"].Texts? then Some(o["time"].texts) else None)
  }

  /**
   * The client's request never fits the server: every element lacks `time`, so a
   * non-empty `showsInput` makes the server's expansion throw (after the movie is
   * stored), and an empty one creates no show.
   */
  lemma PayloadDoesNotFitServer(movieId: string, payload: seq<PayloadShow>, showPrice: int)
    ensures var inputs := seq(|payload|, k requires 0 <= k < |payload| => ServerRead(SentElement(payload[k])));
      (payload != [] ==> Expansion(movieId, inputs, showPrice).None?) &&
      (payload == [] ==> Expansion(movieId, inputs, showPrice) == Some([]))
  {
    var inputs := seq(|payload|, k requires 0 <= k < |payload| => ServerRead(SentElement(payload[k])));
    ExpansionFails(movieId, inputs, showPrice);
    if payload != [] {
      assert "time" !in SentElement(payload[0]);
      assert inputs[0].time.None?;
    }
  }

  /** Sent as `{ date, time }` objects, each date of the selection reads back as that date and its times. */
  lemma IntendedElementsReadBack(sel: Selection)
    ensures forall i :: 0 <= i < |sel| ==>
      ServerRead(map["date" := Text(sel[i].date), "time" := Texts(sel[i].times)]) == ServerShowsInput(sel)[i]
  {
    assert "date" != "time";
  }

  /** The request body the server reads: one `{date, time}` element per date of the selection. */
  function ServerShowsInput(sel: Selection): (r: seq<ShowInput>)
    ensures |r| == |sel|
    ensures forall i :: 0 <= i < |r| ==> r[i] == ShowInput(Some(sel[i].date), Some(sel[i].times))
  {
    if sel == [] then [] else [ShowInput(Some(sel[0].date), Some(sel[0].times))] + ServerShowsInput(sel[1..])
  }

  /**
   * Sent in the shape the server reads, the selection creates one show of the movie at
   * the price per (date, time) pair, each dated `date + "T" + time`.
   */
  lemma {:induction false} IntendedPayloadCreatesEveryShow(movieId: string, sel: Selection, showPrice: int)
    ensures var shows := Expansion(movieId, ServerShowsInput(sel), showPrice);
      shows.Some? && |shows.value| == PairCount(sel) &&
      forall k :: 0 <= k < |shows.value| ==>
        shows.value[k].movie == movieId && shows.value[k].showPrice == showPrice
    ensures sel != [] ==>
      var shows := Expansion(movieId, ServerShowsInput(sel), showPrice).value;
      forall j :: 0 <= j < |sel[0].times| ==> shows[j].showDateTime == sel[0].date + "T" + sel[0].times[j]
  {
    if sel == [] {
      assert ServerShowsInput(sel) == [];
    } else {
      var head := ShowInput(Some(sel[0].date), Some(sel[0].times));
      var rest := ServerShowsInput(sel[1..]);
      IntendedPayloadCreatesEveryShow(movieId, sel[1..], showPrice);
      ExpansionOfOne(movieId, head, showPrice);
      assert ServerShowsInput(sel) == [head] + rest;
      ExpansionAppend(movieId, [head], rest, showPrice);
      ExpansionShape(movieId, ServerShowsInput(sel), showPrice);
    }
  }

  /** The state of the form that submitting reads and resets. */
  class AddShowsForm {
    var selectedMovie: Option<string>
    var selection: Selection
    var dateTimeInput: string
    var showPrice: string
    var rows: int
    var seatsPerRow: int
    var addingShow: bool

    /** The sliders stay in 1..20 and the selection is well formed. */
    predicate Valid()
      reads this
    {
      MIN_SLIDER <= rows <= MAX_SLIDER && MIN_SLIDER <= seatsPerRow <= MAX_SLIDER && WellFormed(selection)
    }

    constructor()
      ensures Valid()
      ensures selectedMovie == None && selection == [] && dateTimeInput == "" && showPrice == ""
      ensures rows == DEFAULT_ROWS && seatsPerRow == DEFAULT_SEATS_PER_ROW && !addingShow
    {
      selectedMovie := None;
      selection := [];
      dateTimeInput := "";
      showPrice := "";
      rows := DEFAULT_ROWS;
      seatsPerRow := DEFAULT_SEATS_PER_ROW;
      addingShow := false;
    }

    /** The "Total Seats" figure. */
    function TotalSeats(): (n: int)
      reads this
      requires Valid()
      ensures rows <= n && seatsPerRow <= n && n <= MAX_SLIDER * MAX_SLIDER
    {
      assert rows * seatsPerRow - rows == rows * (seatsPerRow - 1);
      assert rows * seatsPerRow - seatsPerRow == (rows - 1) * seatsPerRow;
      assert MAX_SLIDER * MAX_SLIDER - rows * seatsPerRow ==
        (MAX_SLIDER - rows) * MAX_SLIDER + rows * (MAX_SLIDER - seatsPerRow);
      rows * seatsPerRow
    }

    /** A slider move; the range input only yields values in 1..20. */
    method SetLayout(newRows: int, newSeatsPerRow: int)
      requires Valid()
      requires MIN_SLIDER <= newRows <= MAX_SLIDER && MIN_SLIDER <= newSeatsPerRow <= MAX_SLIDER
      modifies this
      ensures Valid() && rows == newRows && seatsPerRow == newSeatsPerRow
      ensures selection == old(selection) && selectedMovie == old(selectedMovie) && showPrice == old(showPrice)
    {
      rows := newRows;
      seatsPerRow := newSeatsPerRow;
    }

    /** The "Add Time" button. */
    method HandleDateTimeAdd()
      requires Valid()
      modifies this
      ensures Valid() && selection == AddDateTime(old(selection), dateTimeInput)
      ensures dateTimeInput == old(dateTimeInput) && selectedMovie == old(selectedMovie) && showPrice == old(showPrice)
      ensures rows == old(rows) && seatsPerRow == old(seatsPerRow) && addingShow == old(addingShow)
    {
      selection := AddDateTime(selection, dateTimeInput);
    }

    /** The remove button of one listed time; `false` when the date is not a key and the updater throws. */
    method HandleRemoveTime(date: string, time: string) returns (ok: bool)
      requires Valid()
      modifies this
      ensures Valid() && ok == HasDate(old(selection), date)
      ensures ok ==> selection == RemoveTime(old(selection), date, time).value
      ensures !ok ==> selection == old(selection)
      ensures dateTimeInput == old(dateTimeInput) && selectedMovie == old(selectedMovie) && showPrice == old(showPrice)
      ensures rows == old(rows) && seatsPerRow == old(seatsPerRow) && addingShow == old(addingShow)
    {
      var r := RemoveTime(selection, date, time);
      if r.None? {
        return false;
      }
      RemoveTimeWellFormed(selection, date, time);
      selection := r.value;
      ok := true;
    }

    /**
     * `handleSubmit`. `reply` is the server's `success` flag, `None` when the request
     * throws. Missing fields end it before `addingShow` is cleared; otherwise the request
     * is sent, a success resets the form, and `addingShow` ends false.
     */
    method HandleSubmit(reply: Option<bool>) returns (sent: Option<Payload>)
      requires Valid()
      modifies this
      ensures Valid()
      ensures sent.None? <==> old(selectedMovie).None? || old(selection) == [] || old(showPrice) == ""
      ensures sent.None? ==>
        (addingShow && selectedMovie == old(selectedMovie) && selection == old(selection) &&
         showPrice == old(showPrice) && rows == old(rows) && seatsPerRow == old(seatsPerRow))
      ensures sent.Some? ==>
        (!addingShow &&
         sent.value == Payload(old(selectedMovie).value, ShowsInput(old(selection)), NumberOf(old(showPrice)),
                               old(rows), old(seatsPerRow)))
      ensures sent.Some? && reply == Some(true) ==>
        (selectedMovie == None && selection == [] && showPrice == "" &&
         rows == DEFAULT_ROWS && seatsPerRow == DEFAULT_SEATS_PER_ROW)
      ensures sent.Some? && reply != Some(true) ==>
        (selectedMovie == old(selectedMovie) && selection == old(selection) &&
         showPrice == old(showPrice) && rows == old(rows) && seatsPerRow == old(seatsPerRow))
      ensures dateTimeInput == old(dateTimeInput)
    {
      addingShow := true;
      if selectedMovie.None? || |selection| == 0 || showPrice == "" {
        return None;
      }
      var payload := Payload(selectedMovie.value, ShowsInput(selection), NumberOf(showPrice), rows, seatsPerRow);
      sent := Some(payload);
      if reply == Some(true) {
        selectedMovie := None;
        selection := [];
        showPrice := "";
        rows := DEFAULT_ROWS;
        seatsPerRow := DEFAULT_SEATS_PER_ROW;
      }
      addingShow := false;
    }
  }
}
