/**
 * The date normaliser `remove_timezone_offset`: an ISO 8601 timestamp is
 * reduced to its calendar date, written `YYYY-MM-DD`; an empty, blank or
 * unparsable value becomes None.
 */
module IsoDate {
  import opened Wrappers
  import opened PyText
  import opened XmlTree

  datatype Date = Date(year: nat, month: nat, day: nat)

  predicate IsLeapYear(y: nat) {
    y % 4 == 0 && (y % 100 != 0 || y % 400 == 0)
  }

  function DaysInMonth(year: nat, month: nat): nat {
    if month == 2 then (if IsLeapYear(year) then 29 else 28)
    else if month == 4 || month == 6 || month == 9 || month == 11 then 30
    else 31
  }

  /** A date Python's `date` type can hold: years 1 (MINYEAR) to 9999 (MAXYEAR). */
  predicate ValidDate(d: Date) {
    1 <= d.year <= 9999 && 1 <= d.month <= 12 && 1 <= d.day <= DaysInMonth(d.year, d.month)
  }

  /** Ten characters laid out as `YYYY-MM-DD`. */
  predicate IsDateShape(s: string) {
    && |s| == 10
    && AllDigits(s[0..4]) && s[4] == '-'
    && AllDigits(s[5..7]) && s[7] == '-'
    && AllDigits(s[8..10])
  }

  /** The calendar date written in exactly ten characters `YYYY-MM-DD`. */
  function ParseCalendarDate(s: string): (r: Option<Date>)
    ensures r.Some? ==> ValidDate(r.value) && IsDateShape(s)
  {
    if IsDateShape(s) then
      var d := Date(DigitsValue(s[0..4]), DigitsValue(s[5..7]), DigitsValue(s[8..10]));
      if ValidDate(d) then Some(d) else None
    else None
  }

  /** Two digits at position `i` whose value is below `bound`. */
  predicate DigitsBelow(t: string, i: nat, bound: nat)
    requires i + 2 <= |t|
  {
    AllDigits(t[i..i + 2]) && DigitsValue(t[i..i + 2]) < bound
  }

  /** A time of day: `HH:MM`, `HH:MM:SS`, `HH:MM:SS.fff` or `HH:MM:SS.ffffff`. */
  predicate IsClock(t: string) {
    && (|t| == 5 || |t| == 8 || |t| == 12 || |t| == 15)
    && DigitsBelow(t, 0, 24) && t[2] == ':' && DigitsBelow(t, 3, 60)
    && (|t| >= 8 ==> t[5] == ':' && DigitsBelow(t, 6, 60))
    && (|t| >= 12 ==> t[8] == '.' && AllDigits(t[9..]))
  }

  /** No offset, `Z`, or `+HH:MM` / `-HH:MM`. */
  predicate IsUtcOffset(t: string) {
    || t == ""
    || t == "Z"
    || (&& |t| == 6 && (t[0] == '+' || t[0] == '-')
        && DigitsBelow(t, 1, 24) && t[3] == ':' && DigitsBelow(t, 4, 60))
  }

  predicate ClockThenOffset(t: string, k: nat) {
    k <= |t| && IsClock(t[..k]) && IsUtcOffset(t[k..])
  }

  /** What may follow the date and its one separator character. */
  predicate IsTimeOfDay(t: string) {
    ClockThenOffset(t, 5) || ClockThenOffset(t, 8) || ClockThenOffset(t, 12) || ClockThenOffset(t, 15)
  }

  /**
   * `datetime.fromisoformat(s)`, reduced to the part the caller keeps, the
   * calendar date; None is the ValueError it raises. A time of day may
   * follow the date after one separator character of any kind.
   */
  function FromIsoFormat(s: string): (r: Option<Date>)
    ensures r.Some? ==> |s| >= 10 && ParseCalendarDate(s[..10]) == r
  {
    if |s| < 10 then None
    else
      match ParseCalendarDate(s[..10])
      case None => None
      case Some(d) => if |s| == 10 || IsTimeOfDay(s[11..]) then Some(d) else None
  }

  /** `strftime('%Y-%m-%d')`, the year padded to four digits. */
  function Format(d: Date): (r: string)
    requires ValidDate(d)
  {
    FixedDigits(d.year, 4) + "-" + FixedDigits(d.month, 2) + "-" + FixedDigits(d.day, 2)
  }

  /** The rendered date is read back as the same date. */
  lemma FormatParses(d: Date)
    requires ValidDate(d)
    ensures ParseCalendarDate(Format(d)) == Some(d)
  {
    var s := Format(d);
    assert s[0..4] == FixedDigits(d.year, 4);
    assert s[5..7] == FixedDigits(d.month, 2);
    assert s[8..10] == FixedDigits(d.day, 2);
    FixedDigitsValue(d.year, 4);
    FixedDigitsValue(d.month, 2);
    FixedDigitsValue(d.day, 2);
  }

  /** A parsed date renders back to the very characters it was read from. */
  lemma ParsedFormats(s: string)
    requires ParseCalendarDate(s).Some?
    ensures Format(ParseCalendarDate(s).value) == s
  {
    var d := ParseCalendarDate(s).value;
    assert d == Date(DigitsValue(s[0..4]), DigitsValue(s[5..7]), DigitsValue(s[8..10]));
    DigitsRoundTrip(s[0..4]);
    DigitsRoundTrip(s[5..7]);
    DigitsRoundTrip(s[8..10]);
    assert FixedDigits(d.year, 4) == s[0..4];
    assert FixedDigits(d.month, 2) == s[5..7];
    assert FixedDigits(d.day, 2) == s[8..10];
    assert s[4] == '-' && s[7] == '-';
    assert s == s[0..4] + [s[4]] + s[5..7] + [s[7]] + s[8..10];
  }

  /** The outcome of `remove_timezone_offset`: None, a date string, or an exception it lets through. */
  datatype Normalized = NoDate | DateText(text: string) | Raises

  /**
   * `remove_timezone_offset(value)`. Falsy values and blank strings give
   * None; a string that `fromisoformat` rejects gives None (the ValueError
   * is caught); a string it accepts gives its date part. A non-empty dict or
   * list passes the emptiness tests and makes `fromisoformat` raise
   * TypeError, which the function does not catch.
   */
  function RemoveTimezoneOffset(v: XNode): (r: Normalized)
    ensures r.Raises? <==> Truthy(v) && (v.Dict? || v.List?)
    ensures !Truthy(v) || (v.Text? && IsBlank(v.s)) ==> r == NoDate
    ensures v.Text? ==> (r.DateText? <==> FromIsoFormat(v.s).Some?)
    ensures r.DateText? ==> IsDateShape(r.text) && r.text == v.s[..10]
    ensures r.DateText? ==> FromIsoFormat(r.text) == FromIsoFormat(v.s)
  {
    match v
    case Null => NoDate
    case Dict(m) => if |m| == 0 then NoDate else Raises
    case List(xs) => if |xs| == 0 then NoDate else Raises
    case Text(s) =>
      if s == "" || IsBlank(s) then
        assert |s| >= 10 ==> !IsDateShape(s[..10]) by {
          if |s| >= 10 { assert IsSpace(s[4]) && s[..10][4] == s[4]; }
        }
        NoDate
      else
        match FromIsoFormat(s)
        case None => NoDate
        case Some(d) =>
          ParsedFormats(s[..10]);
          FormatParses(d);
          assert Format(d)[..10] == Format(d);
          DateText(Format(d))
  }

  /**
   * Normalising an already normalised date changes nothing: the date is
   * re-applied to the running value of every scanned section, so a section
   * without a date keeps the previous one.
   */
  lemma NormalizationIsIdempotent(v: XNode)
    requires RemoveTimezoneOffset(v).DateText?
    ensures RemoveTimezoneOffset(Text(RemoveTimezoneOffset(v).text)) == RemoveTimezoneOffset(v)
  {
    var t := RemoveTimezoneOffset(v).text;
    assert t[..10] == t;
    assert !IsSpace(t[4]);
    var d := ParseCalendarDate(t).value;
    ParsedFormats(t);
  }
}
