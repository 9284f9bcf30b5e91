/** Calendar dates as Python's `datetime(year, month, day)` accepts them
    (the proleptic Gregorian calendar, years 1 to 9999), how two of them
    compare, and the conversion of the `YYYY-MM-DD` digits that the date
    pattern captures. */
module Calendar {
  import opened Wrappers
  import opened Text

  /** A date at midnight; validity is a separate predicate. */
  datatype Date = Date(year: int, month: int, day: int)

  const MinYear: int := 1
  const MaxYear: int := 9999

  predicate IsLeapYear(y: int) {
    y % 4 == 0 && (y % 100 != 0 || y % 400 == 0)
  }

  function DaysInYear(y: int): int {
    if IsLeapYear(y) then 366 else 365
  }

  function DaysInMonth(y: int, m: int): (n: int)
    requires 1 <= m <= 12
    ensures 28 <= n <= 31
  {
    if m == 2 then (if IsLeapYear(y) then 29 else 28)
    else if m == 4 || m == 6 || m == 9 || m == 11 then 30
    else 31
  }

  /** The dates for which `datetime(y, m, d)` does not raise ValueError. */
  predicate IsValid(d: Date) {
    && MinYear <= d.year <= MaxYear
    && 1 <= d.month <= 12
    && 1 <= d.day <= DaysInMonth(d.year, d.month)
  }

  /** `datetime(y, m, d)`: the date, or None where Python raises ValueError. */
  function MakeDate(y: int, m: int, d: int): (r: Option<Date>)
    ensures r.Some? ==> IsValid(r.value) && r.value == Date(y, m, d)
    ensures r.None? ==> !IsValid(Date(y, m, d))
  {
    if IsValid(Date(y, m, d)) then Some(Date(y, m, d)) else None
  }

  /** `a > b` on two datetimes of midnight: year, then month, then day. */
  predicate After(a: Date, b: Date) {
    || a.year > b.year
    || (a.year == b.year && a.month > b.month)
    || (a.year == b.year && a.month == b.month && a.day > b.day)
  }

  // Day numbers, as `date.toordinal()` counts them (0001-01-01 is day 1).

  function DaysBeforeYear(y: int): int
    requires y >= MinYear
    decreases y
  {
    if y == MinYear then 0 else DaysBeforeYear(y - 1) + DaysInYear(y - 1)
  }

  function DaysBeforeMonth(y: int, m: int): (n: int)
    requires 1 <= m <= 12
    ensures 0 <= n
    decreases m
  {
    if m == 1 then 0 else DaysBeforeMonth(y, m - 1) + DaysInMonth(y, m - 1)
  }

  function Ordinal(d: Date): int
    requires IsValid(d)
  {
    DaysBeforeYear(d.year) + DaysBeforeMonth(d.year, d.month) + d.day
  }

  /** A month ends no later than the year does. */
  lemma {:induction false} MonthEndsWithinYear(y: int, m: int)
    requires 1 <= m <= 12
    ensures DaysBeforeMonth(y, m) + DaysInMonth(y, m) <= DaysInYear(y)
  {
    var total := DaysBeforeMonth(y, 12) + DaysInMonth(y, 12);
    assert total == DaysInYear(y) by {
      assert DaysBeforeMonth(y, 2) == 31;
      assert DaysBeforeMonth(y, 3) == DaysInMonth(y, 2) + 31;
      assert DaysBeforeMonth(y, 4) == DaysInMonth(y, 2) + 62;
      assert DaysBeforeMonth(y, 5) == DaysInMonth(y, 2) + 92;
      assert DaysBeforeMonth(y, 6) == DaysInMonth(y, 2) + 123;
      assert DaysBeforeMonth(y, 7) == DaysInMonth(y, 2) + 153;
      assert DaysBeforeMonth(y, 8) == DaysInMonth(y, 2) + 184;
      assert DaysBeforeMonth(y, 9) == DaysInMonth(y, 2) + 215;
      assert DaysBeforeMonth(y, 10) == DaysInMonth(y, 2) + 245;
      assert DaysBeforeMonth(y, 11) == DaysInMonth(y, 2) + 276;
      assert DaysBeforeMonth(y, 12) == DaysInMonth(y, 2) + 306;
    }
    if m < 12 {
      MonthsInOrder(y, m, 12);
    }
  }

  /** An earlier month of the same year ends no later than a later one starts. */
  lemma {:induction false} MonthsInOrder(y: int, m1: int, m2: int)
    requires 1 <= m1 < m2 <= 12
    ensures DaysBeforeMonth(y, m1) + DaysInMonth(y, m1) <= DaysBeforeMonth(y, m2)
    decreases m2 - m1
  {
    if m1 + 1 < m2 {
      MonthsInOrder(y, m1 + 1, m2);
    }
  }

  /** An earlier year ends no later than a later one starts. */
  lemma {:induction false} YearsInOrder(y1: int, y2: int)
    requires MinYear <= y1 < y2
    ensures DaysBeforeYear(y1) + DaysInYear(y1) <= DaysBeforeYear(y2)
    decreases y2 - y1
  {
    if y1 + 1 < y2 {
      YearsInOrder(y1 + 1, y2);
    }
  }

  lemma AfterMeansLaterDay(a: Date, b: Date)
    requires IsValid(a) && IsValid(b) && After(a, b)
    ensures Ordinal(a) > Ordinal(b)
  {
    if a.year > b.year {
      MonthEndsWithinYear(b.year, b.month);
      YearsInOrder(b.year, a.year);
    } else if a.month > b.month {
      MonthsInOrder(a.year, b.month, a.month);
    }
  }

  /** Comparing two valid dates the way `datetime` does is comparing their
      day numbers: `a > b` exactly when a falls on a later calendar day. */
  lemma AfterIsChronological(a: Date, b: Date)
    requires IsValid(a) && IsValid(b)
    ensures After(a, b) <==> Ordinal(a) > Ordinal(b)
    ensures a == b <==> Ordinal(a) == Ordinal(b)
  {
    if After(a, b) {
      AfterMeansLaterDay(a, b);
    } else if After(b, a) {
      AfterMeansLaterDay(b, a);
    } else {
      assert a == b;
    }
  }

  /** The three digit groups of `(\d{4})-(\d{2})-(\d{2})`. */
  datatype DateDigits = DateDigits(year: string, month: string, day: string)

  predicate WellFormedDigits(g: DateDigits) {
    && |g.year| == 4 && AllDigits(g.year)
    && |g.month| == 2 && AllDigits(g.month)
    && |g.day| == 2 && AllDigits(g.day)
  }

  /** `DeedParser._parse_date` after its pattern search: no match gives None,
      and a match is converted with `int` and `datetime`, an impossible date
      (month 13, day 31 of a short month, year 0) giving None as well. */
  function ParseDate(m: Option<DateDigits>): (r: Option<Date>)
    requires m.Some? ==> WellFormedDigits(m.value)
    ensures m.None? ==> r.None?
    ensures r.Some? ==> IsValid(r.value)
    ensures m.Some? ==>
      var d := Date(DigitsValue(m.value.year), DigitsValue(m.value.month), DigitsValue(m.value.day));
      (r.Some? <==> IsValid(d)) && (r.Some? ==> r.value == d)
  {
    match m
    case None => None
    case Some(g) => MakeDate(DigitsValue(g.year), DigitsValue(g.month), DigitsValue(g.day))
  }

  /** The digits of the date part (`YYYY-MM-DD`) of `datetime.isoformat()` for a
      valid date; the `T00:00:00` time part that follows is not modelled. */
  function IsoDigits(d: Date): (g: DateDigits)
    requires IsValid(d)
    ensures WellFormedDigits(g)
  {
    DateDigits(PadDigits(d.year, 4), PadDigits(d.month, 2), PadDigits(d.day, 2))
  }

  /** Every valid date survives printing in ISO form and parsing back. */
  lemma IsoRoundTrip(d: Date)
    requires IsValid(d)
    ensures ParseDate(Some(IsoDigits(d))) == Some(d)
  {
    assert Pow10(2) == 100 && Pow10(4) == 10000;
    PadDigitsValue(d.year, 4);
    PadDigitsValue(d.month, 2);
    PadDigitsValue(d.day, 2);
  }

  /** A thirteenth month is no date: it parses to absent rather than failing. */
  lemma MonthThirteenIsAbsent(y: string, d: string)
    requires |y| == 4 && AllDigits(y) && |d| == 2 && AllDigits(d)
    ensures ParseDate(Some(DateDigits(y, "13", d))) == None
  {
    assert DigitsValue("13") == 13 by {
      assert "13"[..1] == "1";
    }
  }
}
