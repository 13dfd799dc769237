/** Proleptic Gregorian calendar dates, the `%Y-%m-%d` numeric form that the
    request parameters and the `date_filed` metadata use, and the
    `%B %d, %Y` form the result cards display. */
module Calendar {
  import opened Base
  import opened Text

  datatype Date = Date(year: int, month: int, day: int)

  predicate IsLeapYear(year: int) {
    year % 4 == 0 && (year % 100 != 0 || year % 400 == 0)
  }

  function DaysInMonth(year: int, month: int): (n: int)
    requires 1 <= month <= 12
    ensures 28 <= n <= 31
    ensures month == 2 ==> (n == 29 <==> IsLeapYear(year))
    ensures month == 2 && !IsLeapYear(year) ==> n == 28
    ensures month != 2 ==> (n == 30 <==> month in {4, 6, 9, 11})
    ensures month !in {2, 4, 6, 9, 11} ==> n == 31
  {
    if month == 2 then (if IsLeapYear(year) then 29 else 28)
    else if month in {4, 6, 9, 11} then 30
    else 31
  }

  /** The dates a Python `date` can hold: years 1 to 9999. */
  predicate IsValid(d: Date) {
    && 1 <= d.year <= 9999
    && 1 <= d.month <= 12
    && 1 <= d.day <= DaysInMonth(d.year, d.month)
  }

  type CalendarDate = d: Date | IsValid(d) witness Date(1970, 1, 1)

  /** The English month names `%B` produces. */
  const MonthNames: seq<string> := [
    "January", "February", "March", "April", "May", "June",
    "July", "August", "September", "October", "November", "December"]

  function MonthName(month: int): (name: string)
    requires 1 <= month <= 12
  {
    MonthNames[month - 1]
  }

  /** The month a full English month name denotes. */
  function MonthNumber(name: string): (m: Option<int>)
    ensures m.Some? ==> 1 <= m.value <= 12 && MonthName(m.value) == name
  {
    if name == "January" then Some(1)
    else if name == "February" then Some(2)
    else if name == "March" then Some(3)
    else if name == "April" then Some(4)
    else if name == "May" then Some(5)
    else if name == "June" then Some(6)
    else if name == "July" then Some(7)
    else if name == "August" then Some(8)
    else if name == "September" then Some(9)
    else if name == "October" then Some(10)
    else if name == "November" then Some(11)
    else if name == "December" then Some(12)
    else None
  }

  lemma MonthNumberOfName(month: int)
    requires 1 <= month <= 12
    ensures MonthNumber(MonthName(month)) == Some(month)
  {
  }

  /** `d.strftime("%Y-%m-%d")`. */
  function FormatIso(d: CalendarDate): (s: string)
    ensures |s| == 10 && s[4] == '-' && s[7] == '-'
  {
    Numeral4(d.year) + "-" + Numeral2(d.month) + "-" + Numeral2(d.day)
  }

  /** The shape `strptime(_, "%Y-%m-%d")` is modelled on: four, two and two
      ASCII digits separated by hyphens. */
  predicate IsoShaped(s: string) {
    && |s| == 10
    && AllDigits(s[..4]) && s[4] == '-'
    && AllDigits(s[5..7]) && s[7] == '-'
    && AllDigits(s[8..])
  }

  /** The year, month and day fields of an ISO-shaped string, unchecked. */
  function IsoFields(s: string): (d: Date)
    requires IsoShaped(s)
  {
    Date(Value4(s[..4]), Value2(s[5..7]), Value2(s[8..]))
  }

  /** `datetime.strptime(s, "%Y-%m-%d")`; `None` stands for its `ValueError`. */
  function ParseIso(s: string): (r: Option<CalendarDate>)
    ensures r.Some? <==> IsoShaped(s) && IsValid(IsoFields(s))
    ensures r.Some? ==> r.value == IsoFields(s)
  {
    if IsoShaped(s) && IsValid(IsoFields(s)) then Some(IsoFields(s)) else None
  }

  /** Formatting a date and parsing it back gives the same date. */
  lemma ParseFormatIso(d: CalendarDate)
    ensures ParseIso(FormatIso(d)) == Some(d)
  {
    var s := FormatIso(d);
    assert s[..4] == Numeral4(d.year);
    assert s[5..7] == Numeral2(d.month);
    assert s[8..] == Numeral2(d.day);
    ValueOfNumeral4(d.year);
    ValueOfNumeral2(d.month);
    ValueOfNumeral2(d.day);
  }

  /** Every string the parser accepts is the canonical form of its date. */
  lemma FormatParseIso(s: string)
    requires ParseIso(s).Some?
    ensures FormatIso(ParseIso(s).value) == s
  {
    assert s == s[..4] + [s[4]] + s[5..7] + [s[7]] + s[8..];
  }

  /** `d.strftime("%B %d, %Y")`, e.g. "May 10, 2023". */
  function FormatLong(d: CalendarDate): (s: string)
    ensures |s| >= 9
  {
    MonthName(d.month) + " " + Numeral2(d.day) + ", " + Numeral4(d.year)
  }

  /** Reads the `%B %d, %Y` form back: a month name, a space, two digits, a
      comma and a space, then four digits. */
  function ParseLong(s: string): (r: Option<CalendarDate>)
  {
    if |s| < 9 then None
    else
      var name, tail := s[..|s| - 9], s[|s| - 9..];
      if tail[0] == ' ' && AllDigits(tail[1..3]) && tail[3..5] == ", " && AllDigits(tail[5..]) then
        match MonthNumber(name)
        case None => None
        case Some(m) =>
          var d := Date(Value4(tail[5..]), m, Value2(tail[1..3]));
          if IsValid(d) then Some(d) else None
      else None
  }

  /** The displayed long form determines the date it was made from. */
  lemma ParseFormatLong(d: CalendarDate)
    ensures ParseLong(FormatLong(d)) == Some(d)
  {
    var s := FormatLong(d);
    var day, year := Numeral2(d.day), Numeral4(d.year);
    var tail := s[|s| - 9..];
    assert s[..|s| - 9] == MonthName(d.month) && tail == " " + day + ", " + year by {
      assert s == MonthName(d.month) + (" " + day + ", " + year);
    }
    assert tail[0] == ' ' && tail[1..3] == day && tail[3..5] == ", " && tail[5..] == year;
    ValueOfNumeral2(d.day);
    ValueOfNumeral4(d.year);
    MonthNumberOfName(d.month);
  }

  lemma FormatLongInjective(d1: CalendarDate, d2: CalendarDate)
    requires FormatLong(d1) == FormatLong(d2)
    ensures d1 == d2
  {
    ParseFormatLong(d1);
    ParseFormatLong(d2);
  }

  /** Lines 100-101: the filing date as the card shows it, or `None` where
      `strptime` raises. */
  function DisplayDate(raw: string): (shown: Option<string>)
  {
    match ParseIso(raw)
    case None => None
    case Some(d) => Some(FormatLong(d))
  }

  /** The card shows a date exactly when `strptime` accepts the stored one,
      and what it shows denotes that same date. */
  lemma DisplayDateMeaning(raw: string)
    ensures DisplayDate(raw).Some? <==> ParseIso(raw).Some?
    ensures DisplayDate(raw).Some? ==> ParseLong(DisplayDate(raw).value) == ParseIso(raw)
  {
    if ParseIso(raw).Some? {
      ParseFormatLong(ParseIso(raw).value);
    }
  }

  /** A date serialised for a request and echoed back as `date_filed` is
      displayed in the long form of the same date. */
  lemma DisplayEchoedDate(d: CalendarDate)
    ensures DisplayDate(FormatIso(d)) == Some(FormatLong(d))
  {
    ParseFormatIso(d);
  }

  /** The example the search form and the cards agree on. */
  lemma DisplayDateExample()
    ensures DisplayDate("2023-05-10") == Some("May 10, 2023")
  {
    var d: CalendarDate := Date(2023, 5, 10);
    DisplayEchoedDate(d);
    May10Forms(d);
  }

  lemma May10Forms(d: CalendarDate)
    requires d == Date(2023, 5, 10)
    ensures FormatIso(d) == "2023-05-10"
    ensures FormatLong(d) == "May 10, 2023"
  {
    assert Numeral4(2023) == "2023" && Numeral2(5) == "05" && Numeral2(10) == "10";
    assert MonthName(5) == "May";
  }

  /** February 29th of a leap year is accepted. */
  lemma LeapDayExample()
    ensures DisplayDate("2024-02-29") == Some("February 29, 2024")
  {
    assert IsLeapYear(2024);
    var d: CalendarDate := Date(2024, 2, 29);
    DisplayEchoedDate(d);
    LeapDayForms(d);
  }

  lemma LeapDayForms(d: CalendarDate)
    requires d == Date(2024, 2, 29)
    ensures FormatIso(d) == "2024-02-29"
    ensures FormatLong(d) == "February 29, 2024"
  {
    assert Numeral4(2024) == "2024" && Numeral2(2) == "02" && Numeral2(29) == "29";
    assert MonthName(2) == "February";
  }

  /** February 29th of a common year is rejected. */
  lemma NonLeapDayRejected()
    ensures DisplayDate("2023-02-29") == None
  {
    assert IsoFields("2023-02-29") == Date(2023, 2, 29);
  }

  /** A thirteenth month is rejected. */
  lemma MonthThirteenRejected()
    ensures DisplayDate("2023-13-01") == None
  {
    assert IsoFields("2023-13-01").month == 13;
  }
}
