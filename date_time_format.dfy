/**
 * `timeFormat` and `time24To12` of client/src/lib/dateTimeFormat.js: a duration in
 * minutes as "Hh Mm", and a 24-hour "HH:MM" time as a 12-hour clock time.
 */
module DateTimeFormat {
  import opened Wrappers
  import opened JsText

  /** `Math.floor(minutes / 60)`. */
  function Hours(minutes: int): int {
    minutes / 60
  }

  /** `minutes % 60` with JavaScript's remainder, which takes the sign of `minutes`. */
  function RemainderMinutes(minutes: int): (r: int)
    ensures -60 < r < 60
    ensures minutes >= 0 ==> 0 <= r && Hours(minutes) >= 0 && Hours(minutes) * 60 + r == minutes
  {
    if minutes >= 0 then minutes % 60 else -((-minutes) % 60)
  }

  /** `timeFormat`: `${hours}h ${minutesRemainder}m`; a non-negative duration reads back as itself. */
  function TimeFormat(minutes: int): (r: string)
    ensures minutes >= 0 ==> ParseDuration(r) == Some(minutes)
  {
    var text := IntToString(Hours(minutes)) + "h " + IntToString(RemainderMinutes(minutes)) + "m";
    if minutes >= 0 then
      ParseDurationParts(Hours(minutes), RemainderMinutes(minutes));
      text
    else
      text
  }

  /**
   * For a negative duration that is not a whole number of hours the floor and the
   * truncating remainder disagree: the parts add up to an hour less than the duration.
   */
  lemma TimeFormatNegativeParts(minutes: int)
    requires minutes < 0 && minutes % 60 != 0
    ensures Hours(minutes) * 60 + RemainderMinutes(minutes) == minutes - 60
  {
    var q := (-minutes) / 60;
    var r := (-minutes) % 60;
    assert -minutes == q * 60 + r && 0 < r < 60;
    assert minutes == (-q - 1) * 60 + (60 - r);
    assert minutes / 60 == -q - 1;
  }

  /** Reads "Hh Mm" back into minutes; `None` when the text is not of that form. */
  function ParseDuration(s: string): Option<nat> {
    var parts := Split(s, ' ');
    if |parts| != 2 then None
    else
      var h := parts[0];
      var m := parts[1];
      if |h| < 1 || h[|h| - 1] != 'h' || |m| < 1 || m[|m| - 1] != 'm' then None
      else
        match (NumberOf(h[..|h| - 1]), NumberOf(m[..|m| - 1]))
        case (Some(hours), Some(rest)) => Some(hours * 60 + rest)
        case _ => None
  }

  /** Hours and minutes written as "Hh Mm" read back as that many minutes. */
  lemma ParseDurationParts(hours: nat, rest: nat)
    ensures ParseDuration(NatToString(hours) + "h " + NatToString(rest) + "m") == Some(hours * 60 + rest)
  {
    var hs := NatToString(hours);
    var rs := NatToString(rest);
    var a := hs + "h";
    var b := rs + "m";
    var text := hs + "h " + rs + "m";
    assert ' ' !in a && ' ' !in b;
    assert text == a + [' '] + b;
    SplitAtFirst(a, ' ', b);
    SplitWithoutSeparator(b, ' ');
    assert Split(text, ' ') == [a, b];
    assert a[|a| - 1] == 'h' && b[|b| - 1] == 'm';
    assert a[..|a| - 1] == hs && b[..|b| - 1] == rs;
    NumberOfNatToString(hours);
    NumberOfNatToString(rest);
    assert NumberOf(a[..|a| - 1]) == Some(hours) && NumberOf(b[..|b| - 1]) == Some(rest);
  }

  /** `Number(h) % 12 || 12`: NaN and multiples of 12 show as 12. */
  function Hour12(h: Option<nat>): (r: nat)
    ensures 1 <= r <= 12
    ensures h.Some? && h.value % 12 != 0 ==> r == h.value % 12
    ensures h.None? || h.value % 12 == 0 ==> r == 12
  {
    if h.Some? && h.value % 12 != 0 then h.value % 12 else 12
  }

  /** `h >= 12 ? 'PM' : 'AM'`: NaN compares false, so it is AM. */
  function Period(h: Option<nat>): (p: string)
    ensures p == "PM" <==> h.Some? && h.value >= 12
    ensures p == "AM" || p == "PM"
  {
    if h.Some? && h.value >= 12 then "PM" else "AM"
  }

  /** A string of digits holds no ':'. */
  lemma NoColonInDigits(s: string)
    requires AllDigits(s)
    ensures ':' !in s
  {
    forall i | 0 <= i < |s| ensures s[i] != ':' {
      assert IsDigit(s[i]);
    }
  }

  /** "hs:m p" splits at ':' with `hs` first, and ends in " AM" or " PM" as `p` says. */
  lemma ClockTextParts(hs: string, m: string, p: string)
    requires ':' !in hs && (p == "AM" || p == "PM")
    ensures var text := hs + ":" + m + " " + p;
      Split(text, ':')[0] == hs && |text| >= 3 && text[|text| - 3..] == " " + p &&
      (text[|text| - 3..] == " PM" <==> p == "PM")
  {
    var text := hs + ":" + m + " " + p;
    assert text == hs + [':'] + (m + " " + p);
    SplitAtFirst(hs, ':', m + " " + p);
    assert text[|text| - 3..] == " " + p;
    if p == "AM" {
      assert (" " + p)[1] == 'A';
    }
  }

  /**
   * `time24To12`: the text after the first ':' is kept as it is (`undefined` when there is
   * none). The figure before the first ':' of the result is the 12-hour figure of the
   * hour, and the result ends in " PM" exactly when the hour is a number of at least 12.
   */
  function Time24To12(time: string): (r: string)
    ensures NumberOf(Split(r, ':')[0]) == Some(Hour12(NumberOf(Split(time, ':')[0])))
    ensures |r| >= 3 && (r[|r| - 3..] == " AM" || r[|r| - 3..] == " PM")
    ensures r[|r| - 3..] == " PM" <==>
      NumberOf(Split(time, ':')[0]).Some? && NumberOf(Split(time, ':')[0]).value >= 12
  {
    var parts := Split(time, ':');
    var h := NumberOf(parts[0]);
    var m := if |parts| >= 2 then parts[1] else "undefined";
    var hs := NatToString(Hour12(h));
    NoColonInDigits(hs);
    ClockTextParts(hs, m, Period(h));
    NumberOfNatToString(Hour12(h));
    hs + ":" + m + " " + Period(h)
  }

  /** An "HH:MM" time is shown as the 12-hour figure, the same minute text and the period. */
  lemma Time24To12Parts(hh: string, mm: string)
    requires AllDigits(hh) && ':' !in hh && ':' !in mm
    ensures Time24To12(hh + ":" + mm) ==
      NatToString(Hour12(Some(DigitsValue(hh)))) + ":" + mm + " " + Period(Some(DigitsValue(hh)))
  {
    assert hh + ":" + mm == hh + [':'] + mm;
    SplitAtFirst(hh, ':', mm);
    SplitWithoutSeparator(mm, ':');
    assert Split(hh + ":" + mm, ':') == [hh, mm];
    assert NumberOf(hh) == Some(DigitsValue(hh));
  }

  /** An hour that is a multiple of 12 is shown with the figure 12. */
  lemma ShownAtTwelve(hh: string, mm: string)
    requires AllDigits(hh) && ':' !in hh && ':' !in mm && DigitsValue(hh) % 12 == 0
    ensures Time24To12(hh + ":" + mm) == "12" + ":" + mm + " " + Period(Some(DigitsValue(hh)))
  {
    var v := DigitsValue(hh);
    assert Hour12(Some(v)) == 12;
    TwelveText();
    Time24To12Parts(hh, mm);
  }

  /** `${12}` is "12". */
  lemma TwelveText()
    ensures NatToString(12) == "12"
  {
    assert NatToString(1) == "1";
    assert DigitChar(2) == '2';
  }

  /** The hour texts "00" and "12" read as 0 and 12. */
  lemma HourTexts()
    ensures AllDigits("00") && DigitsValue("00") == 0
    ensures AllDigits("12") && DigitsValue("12") == 12
  {
    assert IsDigit('0') && IsDigit('1') && IsDigit('2');
    assert "00"[..1] == "0" && "0"[..0] == "";
    assert "12"[..1] == "1" && "1"[..0] == "";
  }

  /** Midnight hours are shown as 12 AM, noon hours as 12 PM. */
  lemma MidnightAndNoon(mm: string)
    requires ':' !in mm
    ensures Time24To12("00:" + mm) == "12:" + mm + " AM"
    ensures Time24To12("12:" + mm) == "12:" + mm + " PM"
  {
    HourTexts();
    NoColonInDigits("00");
    NoColonInDigits("12");
    ShownAtTwelve("00", mm);
    ShownAtTwelve("12", mm);
    assert "00:" + mm == "00" + ":" + mm;
    assert "12:" + mm == "12" + ":" + mm;
    var twelve := "12" + ":" + mm;
    assert twelve == "12:" + mm;
    assert Period(Some(0)) == "AM" && Period(Some(12)) == "PM";
    assert twelve + " " + "AM" == twelve + " AM";
    assert twelve + " " + "PM" == twelve + " PM";
  }

  /** On a 24-hour clock the 12-hour figure and the period give the hour back. */
  lemma Hour12Recovers(h: nat)
    requires h < 24
    ensures h == Hour12(Some(h)) % 12 + (if Period(Some(h)) == "PM" then 12 else 0)
  {
  }
}
