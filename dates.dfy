/** Dates and times as the service parses them with `strptime`: `"%Y-%m-%d"` for dates and
    `"%H:%M"` for session start times, on their zero-padded forms. */
module Dates {
  import opened Base
  import opened Numerals

  datatype Date = Date(year: nat, month: nat, day: nat)

  /** The range a `datetime.date` accepts (day-of-month limits per month are not modelled). */
  predicate ValidDate(d: Date)
  {
    1 <= d.year <= 9999 && 1 <= d.month <= 12 && 1 <= d.day <= 31
  }

  /** `datetime.strptime(text, "%Y-%m-%d").date()`: the whole text must be `YYYY-MM-DD`. */
  function ParseDate(text: string): (r: Option<Date>)
    ensures r.Some? ==> ValidDate(r.value)
  {
    if |text| == 10 && text[4] == '-' && text[7] == '-'
       && AllDigits(text[..4]) && AllDigits(text[5..7]) && AllDigits(text[8..])
    then
      var d := Date(DigitsValue(text[..4]), DigitsValue(text[5..7]), DigitsValue(text[8..]));
      if ValidDate(d) then Some(d) else None
    else None
  }

  /** `strptime(text[:10], "%Y-%m-%d")`: conference dates keep only their first ten characters,
      so a time-of-day suffix is ignored. */
  function ParseDatePrefix(text: string): Option<Date>
  {
    ParseDate(if |text| <= 10 then text else text[..10])
  }

  /** `str(date)`: the ISO form `YYYY-MM-DD`. */
  function FormatDate(d: Date): (text: string)
    requires ValidDate(d)
    ensures |text| == 10
  {
    PaddedDigits(d.year, 4) + "-" + PaddedDigits(d.month, 2) + "-" + PaddedDigits(d.day, 2)
  }

  /** A formatted date parses back, both whole and with anything appended after it. */
  lemma DateRoundTrip(d: Date, suffix: string)
    requires ValidDate(d)
    ensures ParseDate(FormatDate(d)) == Some(d)
    ensures ParseDatePrefix(FormatDate(d) + suffix) == Some(d)
  {
    var text := FormatDate(d);
    assert text[..4] == PaddedDigits(d.year, 4);
    assert text[5..7] == PaddedDigits(d.month, 2);
    assert text[8..] == PaddedDigits(d.day, 2);
    PaddedDigitsValue(d.year, 4);
    PaddedDigitsValue(d.month, 2);
    PaddedDigitsValue(d.day, 2);
    if |suffix| == 0 {
      assert text + suffix == text;
    } else {
      assert (text + suffix)[..10] == text;
    }
  }

  /** `datetime.strptime(text, "%H:%M").time()`, as minutes after midnight. */
  function ParseTime(text: string): (r: Option<nat>)
    ensures r.Some? ==> r.value < 24 * 60
  {
    if |text| == 5 && text[2] == ':' && AllDigits(text[..2]) && AllDigits(text[3..])
       && DigitsValue(text[..2]) < 24 && DigitsValue(text[3..]) < 60
    then Some(DigitsValue(text[..2]) * 60 + DigitsValue(text[3..]))
    else None
  }

  /** A time of day written `HH:MM`. */
  function FormatTime(minutes: nat): (text: string)
    requires minutes < 24 * 60
    ensures |text| == 5
  {
    PaddedDigits(minutes / 60, 2) + ":" + PaddedDigits(minutes % 60, 2)
  }

  lemma TimeRoundTrip(minutes: nat)
    requires minutes < 24 * 60
    ensures ParseTime(FormatTime(minutes)) == Some(minutes)
  {
    var text := FormatTime(minutes);
    assert text[..2] == PaddedDigits(minutes / 60, 2);
    assert text[3..] == PaddedDigits(minutes % 60, 2);
    PaddedDigitsValue(minutes / 60, 2);
    PaddedDigitsValue(minutes % 60, 2);
  }
}
