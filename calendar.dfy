/** Proleptic Gregorian calendar dates in the range Python's `datetime` supports (years 1 to
    9999), the strict `YYYY-MM-DD` text form (the complete calendar date in the extended
    format of ISO 8601) that `strptime(s, "%Y-%m-%d")` reads and
    `strftime("%Y-%m-%d")` writes, the `YYYY-MM` month key, and day numbers
    (`date.toordinal()`, 0001-01-01 being day 1). */
module Calendar {
  import opened Digits
  import opened Wrappers
  import Strings

  datatype Date = Date(year: int, month: int, day: int)

  predicate IsLeapYear(y: int)
  {
    y % 4 == 0 && (y % 100 != 0 || y % 400 == 0)
  }

  function DaysInMonth(y: int, m: int): int
    requires 1 <= m <= 12
  {
    if m == 2 then (if IsLeapYear(y) then 29 else 28)
    else if m == 4 || m == 6 || m == 9 || m == 11 then 30
    else 31
  }

  function DaysInYear(y: int): int
  {
    if IsLeapYear(y) then 366 else 365
  }

  predicate IsValid(d: Date)
  {
    1 <= d.year <= 9999 && 1 <= d.month <= 12 && 1 <= d.day <= DaysInMonth(d.year, d.month)
  }

  /** A date a `datetime` value can hold. */
  type CalendarDate = d: Date | IsValid(d) witness Date(1, 1, 1)

  /** Seconds since midnight. */
  type SecondOfDay = s: int | 0 <= s < 86400

  /** A `datetime` value to whole-second precision. */
  datatype DateTime = DateTime(date: CalendarDate, second: SecondOfDay)

  /** Days in the years before `y`: 365 per year plus one per leap year. */
  function DaysBeforeYear(y: int): int
    requires y >= 1
  {
    var p := y - 1;
    365 * p + p / 4 - p / 100 + p / 400
  }

  /** Days in the months of year `y` before month `m`. */
  function DaysBeforeMonth(y: int, m: int): int
    requires 1 <= m <= 12
  {
    (if m > 2 && IsLeapYear(y) then 1 else 0) +
    (match m
     case 1 => 0 case 2 => 31 case 3 => 59 case 4 => 90 case 5 => 120 case 6 => 151
     case 7 => 181 case 8 => 212 case 9 => 243 case 10 => 273 case 11 => 304 case _ => 334)
  }

  /** `date.toordinal()`. */
  function DayNumber(d: CalendarDate): int
  {
    DaysBeforeYear(d.year) + DaysBeforeMonth(d.year, d.month) + d.day
  }

  /** Calendar order: by year, then month, then day. */
  predicate Before(a: Date, b: Date)
  {
    a.year < b.year ||
    (a.year == b.year && (a.month < b.month || (a.month == b.month && a.day < b.day)))
  }

  /** `(later - earlier).days` for two `datetime` values: the timedelta is normalised so that
      its seconds part lies in [0, 86400), hence the day count is floored. */
  function WholeDaysBetween(earlier: DateTime, later: DateTime): int
  {
    DayNumber(later.date) - DayNumber(earlier.date) + (if later.second < earlier.second then -1 else 0)
  }

  // ---------------------------------------------------------------------------
  // Text forms

  /** `strftime("%Y-%m-%d")`. */
  function Format(d: CalendarDate): string
  {
    Padded(d.year, 4) + "-" + Padded(d.month, 2) + "-" + Padded(d.day, 2)
  }

  /** `strftime("%Y-%m")`, the monthly bucket key. */
  function MonthKey(d: CalendarDate): string
  {
    Padded(d.year, 4) + "-" + Padded(d.month, 2)
  }

  /** `strptime(s, "%Y-%m-%d")` in its strict form: four, two and two digits separated by
      `-`, naming a date that exists; anything else is the `ValueError` case, `None`. */
  function Parse(s: string): Option<CalendarDate>
  {
    if |s| == 10 && s[4] == '-' && s[7] == '-'
       && AllDigits(s[..4]) && AllDigits(s[5..7]) && AllDigits(s[8..])
    then
      var d := Date(ValueOf(s[..4]), ValueOf(s[5..7]), ValueOf(s[8..]));
      if IsValid(d) then var c: CalendarDate := d; Some(c) else None
    else None
  }

  // ---------------------------------------------------------------------------
  // Day numbers

  lemma YearStep(y: int)
    requires y >= 1
    ensures DaysBeforeYear(y + 1) == DaysBeforeYear(y) + DaysInYear(y)
  {
    StepBy4(y);
    StepBy100(y);
    StepBy400(y);
    if y % 400 == 0 {
      MultipleOf400(y);
    }
    if y % 100 == 0 {
      MultipleOf100(y);
    }
  }

  lemma StepBy4(y: int)
    ensures y / 4 - (y - 1) / 4 == (if y % 4 == 0 then 1 else 0)
  {
    var q, r := (y - 1) / 4, (y - 1) % 4;
    if r == 3 {
      assert y == 4 * (q + 1);
    } else {
      assert y == 4 * q + (r + 1);
    }
  }

  lemma StepBy100(y: int)
    ensures y / 100 - (y - 1) / 100 == (if y % 100 == 0 then 1 else 0)
  {
    var q, r := (y - 1) / 100, (y - 1) % 100;
    if r == 99 {
      assert y == 100 * (q + 1);
    } else {
      assert y == 100 * q + (r + 1);
    }
  }

  lemma StepBy400(y: int)
    ensures y / 400 - (y - 1) / 400 == (if y % 400 == 0 then 1 else 0)
  {
    var q, r := (y - 1) / 400, (y - 1) % 400;
    if r == 399 {
      assert y == 400 * (q + 1);
    } else {
      assert y == 400 * q + (r + 1);
    }
  }

  /** A multiple of 400 is a multiple of 100. */
  lemma MultipleOf400(y: int)
    requires y % 400 == 0
    ensures y % 100 == 0
  {
    var t := y / 400;
    assert y == 100 * (4 * t) + 0;
  }

  /** A multiple of 100 is a multiple of 4. */
  lemma MultipleOf100(y: int)
    requires y % 100 == 0
    ensures y % 4 == 0
  {
    var t := y / 100;
    assert y == 4 * (25 * t) + 0;
  }

  lemma {:induction false} DaysBeforeYearGrows(y1: int, y2: int)
    requires 1 <= y1 <= y2
    ensures DaysBeforeYear(y1) + 365 * (y2 - y1) <= DaysBeforeYear(y2)
    decreases y2 - y1
  {
    if y1 < y2 {
      DaysBeforeYearGrows(y1, y2 - 1);
      YearStep(y2 - 1);
    }
  }

  lemma DayWithinYear(d: CalendarDate)
    ensures DaysBeforeYear(d.year) < DayNumber(d) <= DaysBeforeYear(d.year) + DaysInYear(d.year)
  {
  }

  /** Day numbers follow calendar order. */
  lemma DayNumberOrdered(a: CalendarDate, b: CalendarDate)
    requires Before(a, b)
    ensures DayNumber(a) < DayNumber(b)
  {
    DayWithinYear(a);
    DayWithinYear(b);
    if a.year < b.year {
      YearStep(a.year);
      DaysBeforeYearGrows(a.year + 1, b.year);
    }
  }

  /** Day numbers tell dates apart and order them exactly as the calendar does. */
  lemma DayNumberOrder(a: CalendarDate, b: CalendarDate)
    ensures DayNumber(a) < DayNumber(b) <==> Before(a, b)
    ensures DayNumber(a) == DayNumber(b) <==> a == b
  {
    if Before(a, b) {
      DayNumberOrdered(a, b);
    } else if Before(b, a) {
      DayNumberOrdered(b, a);
    }
  }

  /** A leap February counts its 29th day: 2024-01-01 to 2024-03-01 is 60 days. */
  lemma LeapFebruaryExample()
    ensures DayNumber(Date(2024, 3, 1)) - DayNumber(Date(2024, 1, 1)) == 60
    ensures DayNumber(Date(2023, 3, 1)) - DayNumber(Date(2023, 1, 1)) == 59
  {
  }

  /** `timedelta.days` is the floor of the elapsed time in days: the whole-day count, in
      seconds, is at most the elapsed seconds and one more day would exceed them. */
  lemma WholeDaysIsFloor(p: DateTime, h: DateTime)
    ensures var elapsed := (DayNumber(h.date) - DayNumber(p.date)) * 86400 + h.second - p.second;
      WholeDaysBetween(p, h) * 86400 <= elapsed < (WholeDaysBetween(p, h) + 1) * 86400
  {
  }

  /** At equal times of day the whole-day difference is positive exactly when the second
      value falls on a later calendar day, and 0 exactly when both fall on the same day. */
  lemma WholeDaysSign(p: DateTime, h: DateTime)
    requires p.second == h.second
    ensures WholeDaysBetween(p, h) > 0 <==> Before(p.date, h.date)
    ensures WholeDaysBetween(p, h) == 0 <==> p.date == h.date
  {
    DayNumberOrder(p.date, h.date);
  }

  // ---------------------------------------------------------------------------
  // Round trips between dates and their text

  lemma FormatShape(d: CalendarDate)
    ensures var s := Format(d);
      |s| == 10 && s[4] == '-' && s[7] == '-'
      && s[..4] == Padded(d.year, 4) && s[5..7] == Padded(d.month, 2) && s[8..] == Padded(d.day, 2)
  {
  }

  /** Parsing a formatted date gives the same date. */
  lemma ParseFormat(d: CalendarDate)
    ensures Parse(Format(d)) == Some(d)
  {
    FormatShape(d);
    PaddedValue(d.year, 4);
    PaddedValue(d.month, 2);
    PaddedValue(d.day, 2);
  }

  /** A string that parses is exactly the formatted form of its date. */
  lemma FormatParse(s: string)
    requires Parse(s).Some?
    ensures Format(Parse(s).value) == s
  {
    var d := Parse(s).value;
    ValuePadded(s[..4]);
    ValuePadded(s[5..7]);
    ValuePadded(s[8..]);
    assert s == s[..4] + "-" + s[5..7] + "-" + s[8..];
  }

  /** The month key is the first seven characters of the formatted date. */
  lemma MonthKeyIsPrefix(d: CalendarDate)
    ensures MonthKey(d) == Format(d)[..7]
  {
  }

  /** Two dates share a month key exactly when they share year and month. */
  lemma MonthKeyInjective(a: CalendarDate, b: CalendarDate)
    ensures MonthKey(a) == MonthKey(b) <==> (a.year == b.year && a.month == b.month)
  {
    if MonthKey(a) == MonthKey(b) {
      var ka, kb := MonthKey(a), MonthKey(b);
      assert ka[..4] == Padded(a.year, 4) && kb[..4] == Padded(b.year, 4);
      assert ka[5..] == Padded(a.month, 2) && kb[5..] == Padded(b.month, 2);
      PaddedValue(a.year, 4);
      PaddedValue(b.year, 4);
      PaddedValue(a.month, 2);
      PaddedValue(b.month, 2);
    }
  }

  /** Sorting month keys as strings sorts them chronologically: one key is smaller than
      another exactly when its month comes earlier. */
  lemma MonthKeyChronological(a: CalendarDate, b: CalendarDate)
    ensures Strings.Less(MonthKey(a), MonthKey(b))
            <==> a.year < b.year || (a.year == b.year && a.month < b.month)
  {
    var ya, yb := Padded(a.year, 4) + "-", Padded(b.year, 4) + "-";
    YearPartOrder(a.year, b.year);
    assert Pow10(2) == 100;
    PaddedLess(a.month, b.month, 2);
    Strings.LessConcat(ya, Padded(a.month, 2), yb, Padded(b.month, 2));
  }

  /** The `YYYY-` parts of two keys compare, and are equal, as the years do. */
  lemma YearPartOrder(y1: nat, y2: nat)
    requires y1 < 10000 && y2 < 10000
    ensures Strings.Less(Padded(y1, 4) + "-", Padded(y2, 4) + "-") <==> y1 < y2
    ensures Padded(y1, 4) + "-" == Padded(y2, 4) + "-" <==> y1 == y2
  {
    var p1, p2 := Padded(y1, 4), Padded(y2, 4);
    assert Pow10(4) == 10000;
    PaddedLess(y1, y2, 4);
    PaddedValue(y1, 4);
    PaddedValue(y2, 4);
    Strings.LessConcat(p1, "-", p2, "-");
    Strings.LessIrreflexive("-");
    assert p1 + "-" == p2 + "-" ==> p1 == (p1 + "-")[..4] == (p2 + "-")[..4] == p2;
  }

  /** The two days of the worked examples, rendered. */
  lemma FormatExamples()
    ensures Format(Date(2024, 1, 1)) == "2024-01-01" && Format(Date(2024, 3, 1)) == "2024-03-01"
  {
    assert Padded(2024, 4) == "2024";
    assert Padded(1, 2) == "01" && Padded(3, 2) == "03";
  }
}
