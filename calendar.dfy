/** Day-number arithmetic of ECMAScript dates, as `Date.UTC` uses it
    (ECMA-262, 2022 edition: DayFromYear in section 21.4.1.3, MakeDay in
    section 21.4.1.12, Date.UTC in section 21.4.3.4). Day 0 is 1970-01-01.
    Dafny's `/` and `%` with a positive divisor are floor division and the
    non-negative remainder, which is what the standard's `floor` and
    `modulo` mean. */
module Calendar {

  /** Milliseconds in one day (msPerDay, section 21.4.1.1). */
  const MsPerDay: int := 86400000

  predicate IsLeapYear(y: int) {
    y % 4 == 0 && (y % 100 != 0 || y % 400 == 0)
  }

  function DaysInYear(y: int): (d: int)
    ensures d == 365 || d == 366
    ensures d == 366 <==> IsLeapYear(y)
  {
    if IsLeapYear(y) then 366 else 365
  }

  /** Number of the day on which year `y` starts, in closed form. */
  function DayFromYear(y: int): int {
    365 * (y - 1970) + (y - 1969) / 4 - (y - 1901) / 100 + (y - 1601) / 400
  }

  /** Days in month `mn` (0 = January) of year `y`. */
  function DaysInMonth(y: int, mn: int): (d: int)
    requires 0 <= mn < 12
    ensures 28 <= d <= 31
    ensures mn == 1 ==> (d == 29 <==> IsLeapYear(y))
  {
    if mn == 1 then (if IsLeapYear(y) then 29 else 28)
    else if mn == 3 || mn == 5 || mn == 8 || mn == 10 then 30
    else 31
  }

  /** Days of year `y` before the first of month `mn`: the lengths of the
      months before it added up, which is the table of MonthFromTime
      (section 21.4.1.4). */
  function DaysBeforeMonth(y: int, mn: int): (d: int)
    requires 0 <= mn <= 12
    ensures 28 * mn <= d <= 31 * mn
  {
    if mn == 0 then 0 else DaysBeforeMonth(y, mn - 1) + DaysInMonth(y, mn - 1)
  }

  /** MakeDay(year, month, date) for integral arguments: the month is
      normalised into a year offset by floor division and a month index by
      the non-negative remainder, so month 12 is January of the next year
      and month -1 is December of the previous one. */
  function MakeDay(year: int, month: int, date: int): int {
    var ym := year + month / 12;
    var mn := month % 12;
    DayFromYear(ym) + DaysBeforeMonth(ym, mn) + date - 1
  }

  /** Step 8 of Date.UTC: a year argument from 0 to 99 means 1900 + year. */
  function UtcYear(year: int): (y: int)
    ensures 0 <= year <= 99 ==> y == 1900 + year
    ensures !(0 <= year <= 99) ==> y == year
  {
    if 0 <= year <= 99 then 1900 + year else year
  }

  /** `Date.UTC(year, month, date, 0, 0, 0)` in milliseconds, for integral
      arguments whose result lies within the TimeClip range. */
  function DateUtc(year: int, month: int, date: int): int {
    MakeDay(UtcYear(year), month, date) * MsPerDay
  }

  // ---------------------------------------------------------------------
  // An independent reference: the day on which a year starts, obtained by
  // counting whole years from 1970.
  // ---------------------------------------------------------------------

  function DaysFromEpoch(y: int): int
    decreases if y < 1970 then 1970 - y else y - 1970
  {
    if y == 1970 then 0
    else if y > 1970 then DaysFromEpoch(y - 1) + DaysInYear(y - 1)
    else DaysFromEpoch(y + 1) - DaysInYear(y)
  }

  /** The day number of the first of month `mn` (0 = January) of year `y`,
      counted from the reference definitions only. */
  function FirstDayOfMonth(y: int, mn: int): int
    requires 0 <= mn < 12
  {
    DaysFromEpoch(y) + DaysBeforeMonth(y, mn)
  }

  /** Consecutive values of the closed form differ by the length of the
      year: the floor terms count exactly the leap years. */
  lemma DayFromYearStep(y: int)
    ensures DayFromYear(y + 1) == DayFromYear(y) + DaysInYear(y)
  {
    FourYearTerm(y);
    CenturyTerm(y);
    FourCenturyTerm(y);
    LeapTerms(y);
    assert DayFromYear(y + 1) == 365 * (y - 1969) + (y - 1968) / 4 - (y - 1900) / 100 + (y - 1600) / 400;
  }

  /** The length of a year as the inclusion-exclusion of its divisors. */
  lemma LeapTerms(y: int)
    ensures DaysInYear(y) == 365 + (if y % 4 == 0 then 1 else 0) - (if y % 100 == 0 then 1 else 0)
                                 + (if y % 400 == 0 then 1 else 0)
  {
    if y % 100 == 0 {
      CenturyIsLeapCandidate(y);
    }
    if y % 400 == 0 {
      FourCenturiesIsCentury(y);
    }
  }

  lemma CenturyIsLeapCandidate(y: int)
    requires y % 100 == 0
    ensures y % 4 == 0
  {
    assert y == 4 * (25 * (y / 100));
  }

  lemma FourCenturiesIsCentury(y: int)
    requires y % 400 == 0
    ensures y % 100 == 0
  {
    assert y == 100 * (4 * (y / 400));
  }

  lemma FourYearTerm(y: int)
    ensures (y - 1968) / 4 - (y - 1969) / 4 == (if y % 4 == 0 then 1 else 0)
  {
    assert (y - 1968) % 4 == 0 <==> y % 4 == 0;
  }

  lemma CenturyTerm(y: int)
    ensures (y - 1900) / 100 - (y - 1901) / 100 == (if y % 100 == 0 then 1 else 0)
  {
    assert (y - 1900) % 100 == 0 <==> y % 100 == 0;
  }

  lemma FourCenturyTerm(y: int)
    ensures (y - 1600) / 400 - (y - 1601) / 400 == (if y % 400 == 0 then 1 else 0)
  {
    assert (y - 1600) % 400 == 0 <==> y % 400 == 0;
  }

  /** The closed form of DayFromYear agrees with counting days year by year. */
  lemma {:induction false} DayFromYearCountsDays(y: int)
    ensures DayFromYear(y) == DaysFromEpoch(y)
    decreases if y < 1970 then 1970 - y else y - 1970
  {
    if y > 1970 {
      DayFromYearCountsDays(y - 1);
      DayFromYearStep(y - 1);
    } else if y < 1970 {
      DayFromYearCountsDays(y + 1);
      DayFromYearStep(y);
    }
  }

  /** The month table adds up: each entry is the previous one plus the
      length of the previous month, and the whole year has DaysInYear days. */
  lemma DaysBeforeNextMonth(y: int, mn: int)
    requires 0 <= mn < 12
    ensures DaysBeforeMonth(y, mn + 1) == DaysBeforeMonth(y, mn) + DaysInMonth(y, mn)
    ensures DaysBeforeMonth(y, 12) == DaysInYear(y)
  {
    var f := DaysInMonth(y, 1);
    assert DaysBeforeMonth(y, 2) == 31 + f;
    assert DaysBeforeMonth(y, 4) == 92 + f;
    assert DaysBeforeMonth(y, 6) == 153 + f;
    assert DaysBeforeMonth(y, 8) == 215 + f;
    assert DaysBeforeMonth(y, 10) == 276 + f;
    assert DaysBeforeMonth(y, 12) == 337 + f;
  }

  /** The first of the month MakeDay lands on lies inside the normalised
      year, and so does the whole month. */
  lemma MakeDayWithinYear(year: int, month: int)
    ensures var ym := year + month / 12;
            var d := MakeDay(year, month, 1);
            DayFromYear(ym) <= d && d + DaysInMonth(ym, month % 12) <= DayFromYear(ym + 1)
  {
    var ym := year + month / 12;
    DayFromYearStep(ym);
    DaysBeforeNextMonth(ym, month % 12);
  }

  /** Advancing the month argument by one moves MakeDay forward by the
      length of the normalised month, across a year boundary too. */
  lemma MakeDayNextMonth(year: int, month: int)
    ensures MakeDay(year, month + 1, 1)
            == MakeDay(year, month, 1) + DaysInMonth(year + month / 12, month % 12)
  {
    var ym := year + month / 12;
    var mn := month % 12;
    DaysBeforeNextMonth(ym, mn);
    if mn == 11 {
      assert (month + 1) / 12 == month / 12 + 1 && (month + 1) % 12 == 0;
      DayFromYearStep(ym);
    } else {
      assert (month + 1) / 12 == month / 12 && (month + 1) % 12 == mn + 1;
    }
  }

  /** Twelve months more is one year more. */
  lemma MakeDayYearRoll(year: int, month: int, date: int)
    ensures MakeDay(year, month + 12, date) == MakeDay(year + 1, month, date)
  {
    assert (month + 12) / 12 == month / 12 + 1 && (month + 12) % 12 == month % 12;
  }

  /** MakeDay of the first of a month, in terms of the reference count. */
  lemma MakeDayIsCivil(year: int, month: int)
    ensures MakeDay(year, month, 1) == FirstDayOfMonth(year + month / 12, month % 12)
  {
    DayFromYearCountsDays(year + month / 12);
  }
}
