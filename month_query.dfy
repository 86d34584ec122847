/** The `month=YYYY-MM` query parameter shared by the summary route and the
    transaction listing: the pattern check `^\d{4}-\d{2}$`, the split into a
    year and a month number, and the half-open UTC range
    `[Date.UTC(year, m - 1, 1), Date.UTC(year, m, 1))` in milliseconds. */
module MonthQuery {
  import opened Common
  import opened Calendar

  /** The two numbers `Number(yearStr)` and `Number(monthStr)`. The month
      number is not checked against 1..12. */
  datatype YearMonth = YearMonth(year: nat, month: nat)

  /** `/^\d{4}-\d{2}$/` without flags: exactly four ASCII digits, a hyphen and
      two ASCII digits, with nothing before or after. */
  predicate MatchesMonthPattern(s: string) {
    |s| == 7 && AllDigits(s[..4]) && s[4] == '-' && AllDigits(s[5..])
  }

  /** The regular-expression check followed by `split("-")` and `Number` on
      both halves. */
  function ParseMonth(s: string): (r: Option<YearMonth>)
    ensures r.Some? <==> MatchesMonthPattern(s)
    ensures r.Some? ==> r.value.year <= 9999 && r.value.month <= 99
  {
    if MatchesMonthPattern(s) then Some(YearMonth(DecimalValue(s[..4]), DecimalValue(s[5..])))
    else None
  }

  /** The inverse of ParseMonth: the zero-padded `YYYY-MM` spelling. */
  function FormatMonth(ym: YearMonth): (s: string)
    requires ym.year <= 9999 && ym.month <= 99
    ensures MatchesMonthPattern(s)
  {
    var y, m := ym.year, ym.month;
    [DigitChar(y / 1000), DigitChar(y / 100 % 10), DigitChar(y / 10 % 10), DigitChar(y % 10),
     '-', DigitChar(m / 10), DigitChar(m % 10)]
  }

  lemma DecimalValueOfTwo(s: string)
    requires |s| == 2 && AllDigits(s)
    ensures DecimalValue(s) == 10 * DigitValue(s[0]) + DigitValue(s[1])
  {
    assert s[..1][..0] == [];
  }

  lemma DecimalValueOfFour(s: string)
    requires |s| == 4 && AllDigits(s)
    ensures DecimalValue(s) == 1000 * DigitValue(s[0]) + 100 * DigitValue(s[1])
                               + 10 * DigitValue(s[2]) + DigitValue(s[3])
  {
    var s3 := s[..3];
    var s2 := s3[..2];
    DecimalValueOfTwo(s2);
    assert DecimalValue(s3) == DecimalValue(s2) * 10 + DigitValue(s[2]);
  }

  lemma DigitsOfFour(a: nat, b: nat, c: nat, d: nat)
    requires a < 10 && b < 10 && c < 10 && d < 10
    ensures var y := 1000 * a + 100 * b + 10 * c + d;
            y / 1000 == a && y / 100 % 10 == b && y / 10 % 10 == c && y % 10 == d
  {
    var y := 1000 * a + 100 * b + 10 * c + d;
    assert y / 10 == 100 * a + 10 * b + c;
    assert y / 100 == 10 * a + b;
    assert (10 * a + b) % 10 == b;
    assert (100 * a + 10 * b + c) % 10 == c;
  }

  lemma DivTen(n: nat, q: nat, r: nat)
    requires n == 10 * q + r && r < 10
    ensures n / 10 == q && n % 10 == r
  {
  }

  lemma FourDigitsOf(y: nat)
    requires y <= 9999
    ensures 1000 * (y / 1000) + 100 * (y / 100 % 10) + 10 * (y / 10 % 10) + y % 10 == y
  {
    var q1 := y / 10;
    var q2 := q1 / 10;
    var q3 := q2 / 10;
    DivTen(y, q1, y % 10);
    DivTen(q1, q2, q1 % 10);
    DivTen(q2, q3, q2 % 10);
    assert y == 100 * q2 + 10 * (q1 % 10) + y % 10;
    assert y / 100 == q2;
    assert y == 1000 * q3 + 100 * (q2 % 10) + 10 * (q1 % 10) + y % 10;
    assert y / 1000 == q3;
  }

  lemma DigitCharOfValue(c: char)
    requires IsDigit(c)
    ensures DigitChar(DigitValue(c)) == c
  {
  }

  /** Every year up to 9999 and month number up to 99 has a spelling that
      parses back to it. */
  lemma ParseFormatRoundTrip(ym: YearMonth)
    requires ym.year <= 9999 && ym.month <= 99
    ensures ParseMonth(FormatMonth(ym)) == Some(ym)
  {
    var s := FormatMonth(ym);
    var y, m := ym.year, ym.month;
    DecimalValueOfFour(s[..4]);
    DecimalValueOfTwo(s[5..]);
    FourDigitsOf(y);
    assert DecimalValue(s[..4]) == y;
    assert DecimalValue(s[5..]) == m;
  }

  /** An accepted string is exactly the spelling of the value it parses to,
      so two different accepted strings never denote the same value. */
  lemma FormatParseRoundTrip(s: string)
    requires MatchesMonthPattern(s)
    ensures FormatMonth(ParseMonth(s).value) == s
  {
    var ym := ParseMonth(s).value;
    var yearDigits, monthDigits := s[..4], s[5..];
    assert IsDigit(yearDigits[0]) && IsDigit(yearDigits[1]) && IsDigit(yearDigits[2]) && IsDigit(yearDigits[3]);
    assert IsDigit(monthDigits[0]) && IsDigit(monthDigits[1]);
    DecimalValueOfFour(yearDigits);
    DecimalValueOfTwo(monthDigits);
    DigitsOfFour(DigitValue(s[0]), DigitValue(s[1]), DigitValue(s[2]), DigitValue(s[3]));
    DigitsOfFour(0, 0, DigitValue(s[5]), DigitValue(s[6]));
    DigitCharOfValue(s[0]);
    DigitCharOfValue(s[1]);
    DigitCharOfValue(s[2]);
    DigitCharOfValue(s[3]);
    DigitCharOfValue(s[5]);
    DigitCharOfValue(s[6]);
    var t := FormatMonth(ym);
    assert t[0] == s[0] && t[1] == s[1] && t[2] == s[2] && t[3] == s[3];
    assert t[4] == s[4] && t[5] == s[5] && t[6] == s[6];
  }

  /** A half-open interval of time values, `{ gte: start, lt: end }`. */
  datatype Range = Range(start: int, end: int)

  predicate InRange(r: Range, t: int) {
    r.start <= t < r.end
  }

  /** `start = Date.UTC(year, m - 1, 1, 0, 0, 0)` and
      `end = Date.UTC(year, m, 1, 0, 0, 0)`. */
  function MonthRangeOf(ym: YearMonth): Range {
    Range(DateUtc(ym.year, ym.month - 1, 1), DateUtc(ym.year, ym.month, 1))
  }

  /** The month query as both routes read it: a missing parameter or one
      that does not match the pattern is rejected; otherwise the range of
      the month it names. */
  function ResolveMonth(month: Option<string>): (r: Option<Range>)
    ensures r.Some? <==> month.Some? && MatchesMonthPattern(month.value)
    ensures r.Some? ==> r.value == MonthRangeOf(ParseMonth(month.value).value)
  {
    if month.None? then None
    else match ParseMonth(month.value)
      case None => None
      case Some(ym) => Some(MonthRangeOf(ym))
  }

  /** The calendar month a parsed value denotes once Date.UTC has shifted a
      two-digit year and MakeDay has rolled the month over: its year, */
  function DenotedYear(ym: YearMonth): int {
    UtcYear(ym.year) + (ym.month - 1) / 12
  }

  /** and its month index, 0 for January. */
  function DenotedMonth(ym: YearMonth): (mn: int)
    ensures 0 <= mn < 12
  {
    (ym.month - 1) % 12
  }

  /** The range starts at midnight UTC on the first of the denoted month and
      is exactly that month long, roll-over included. */
  lemma MonthRangeIsOneMonth(ym: YearMonth)
    ensures MonthRangeOf(ym).start == FirstDayOfMonth(DenotedYear(ym), DenotedMonth(ym)) * MsPerDay
    ensures MonthRangeOf(ym).end
            == MonthRangeOf(ym).start + DaysInMonth(DenotedYear(ym), DenotedMonth(ym)) * MsPerDay
  {
    var y := UtcYear(ym.year);
    var m := ym.month - 1;
    MakeDayIsCivil(y, m);
    MakeDayNextMonth(y, m);
    assert m + 1 == ym.month;
    var first := MakeDay(y, m, 1);
    var days := DaysInMonth(DenotedYear(ym), DenotedMonth(ym));
    assert MonthRangeOf(ym).end == (first + days) * MsPerDay;
  }

  /** For a month number from 01 to 12 the denoted month is that month of
      the (shifted) year, so `end - start` is its number of days. */
  lemma CalendarMonthRange(ym: YearMonth)
    requires 1 <= ym.month <= 12
    ensures MonthRangeOf(ym).start == FirstDayOfMonth(UtcYear(ym.year), ym.month - 1) * MsPerDay
    ensures MonthRangeOf(ym).end - MonthRangeOf(ym).start
            == DaysInMonth(UtcYear(ym.year), ym.month - 1) * MsPerDay
  {
    assert DenotedYear(ym) == UtcYear(ym.year);
    assert DenotedMonth(ym) == ym.month - 1;
    MonthRangeIsOneMonth(ym);
  }

  lemma DateUtcYearRoll(year: nat, month: int)
    requires year != 99
    ensures DateUtc(year, month + 12, 1) == DateUtc(year + 1, month, 1)
  {
    assert UtcYear(year + 1) == UtcYear(year) + 1;
    MakeDayYearRoll(UtcYear(year), month, 1);
  }

  /** Month numbers above 12 roll into the following year: "2026-13" is
      January 2027. The shift of Date.UTC breaks this only between the years
      0099 and 0100. */
  lemma MonthOverflowRollsYear(year: nat, month: nat)
    requires year != 99
    ensures MonthRangeOf(YearMonth(year, month + 12)) == MonthRangeOf(YearMonth(year + 1, month))
  {
    DateUtcYearRoll(year, month - 1);
    DateUtcYearRoll(year, month);
    assert month + 12 - 1 == (month - 1) + 12;
  }

  /** Month number 00 is December of the previous year: "2026-00" is
      December 2025. */
  lemma MonthZeroIsPreviousDecember(year: nat)
    requires year >= 1 && year != 100
    ensures MonthRangeOf(YearMonth(year, 0)) == MonthRangeOf(YearMonth(year - 1, 12))
  {
    var previous: nat := year - 1;
    MonthOverflowRollsYear(previous, 0);
    assert YearMonth(previous, 0 + 12) == YearMonth(year - 1, 12);
    assert YearMonth(previous + 1, 0) == YearMonth(year, 0);
  }

  /** Years 0000 to 0099 are read as 1900 to 1999: "0050-03" is March 1950. */
  lemma TwoDigitYearShift(year: nat, month: nat)
    requires year <= 99
    ensures MonthRangeOf(YearMonth(year, month)) == MonthRangeOf(YearMonth(1900 + year, month))
  {
  }

  /** Every accepted month lies far inside the time range of
      +-8.64e15 ms (section 21.4.1.1 of ECMA-262) that TimeClip enforces, so Date.UTC never yields NaN here. */
  lemma AcceptedMonthWithinTimeClip(ym: YearMonth)
    requires ym.year <= 9999 && ym.month <= 99
    ensures -8640000000000000 <= MonthRangeOf(ym).start < MonthRangeOf(ym).end <= 8640000000000000
  {
    var y := UtcYear(ym.year);
    var m := ym.month - 1;
    assert -1 <= m <= 98;
    assert 99 <= y + m / 12 <= 10007;
    assert 99 <= y + (m + 1) / 12 <= 10008;
    DayBounds(y, m);
    DayBounds(y, m + 1);
    MakeDayNextMonth(y, m);
  }

  lemma DayBounds(year: int, month: int)
    requires 99 <= year + month / 12 <= 10008
    ensures -1000000 <= MakeDay(year, month, 1) <= 3000000
  {
  }

  /** The spellings the examples below use parse to these values. */
  lemma ExampleSpellings()
    ensures ParseMonth("2026-02") == Some(YearMonth(2026, 2))
    ensures ParseMonth("2026-13") == Some(YearMonth(2026, 13))
    ensures ParseMonth("2026-00") == Some(YearMonth(2026, 0))
    ensures ParseMonth("0050-03") == Some(YearMonth(50, 3))
    ensures ParseMonth("2024-02") == Some(YearMonth(2024, 2))
  {
    SpellingParses("2026-02", YearMonth(2026, 2));
    SpellingParses("2026-13", YearMonth(2026, 13));
    SpellingParses("2026-00", YearMonth(2026, 0));
    SpellingParses("0050-03", YearMonth(50, 3));
    SpellingParses("2024-02", YearMonth(2024, 2));
  }

  /** An accepted string parses to the numbers its digits spell. */
  lemma SpellingParses(s: string, ym: YearMonth)
    requires MatchesMonthPattern(s)
    requires ym.year == 1000 * DigitValue(s[0]) + 100 * DigitValue(s[1]) + 10 * DigitValue(s[2]) + DigitValue(s[3])
    requires ym.month == 10 * DigitValue(s[5]) + DigitValue(s[6])
    ensures ParseMonth(s) == Some(ym)
  {
    DecimalValueOfFour(s[..4]);
    DecimalValueOfTwo(s[5..]);
  }

  /** The range of a month, from the day numbers on which it and the next
      month start. */
  lemma RangeOfDays(ym: YearMonth, first: int, next: int)
    requires MakeDay(UtcYear(ym.year), ym.month - 1, 1) == first
    requires MakeDay(UtcYear(ym.year), ym.month, 1) == next
    ensures MonthRangeOf(ym) == Range(first * MsPerDay, next * MsPerDay)
  {
  }

  /** February 2026 runs from 2026-02-01T00:00Z to 2026-03-01T00:00Z. */
  lemma ExampleFebruary2026()
    ensures MonthRangeOf(YearMonth(2026, 2)) == Range(1769904000000, 1772323200000)
  {
    assert DayFromYear(2026) == 20454;
    assert DaysBeforeMonth(2026, 1) == 31 && DaysBeforeMonth(2026, 2) == 59;
    assert MakeDay(2026, 1, 1) == 20485 && MakeDay(2026, 2, 1) == 20513;
    RangeOfDays(YearMonth(2026, 2), 20485, 20513);
  }

  /** "2026-13" is January 2027: [2027-01-01, 2027-02-01). */
  lemma ExampleMonthThirteen()
    ensures MonthRangeOf(YearMonth(2026, 13)) == Range(1798761600000, 1801440000000)
  {
    assert DayFromYear(2027) == 20819;
    assert DaysBeforeMonth(2027, 1) == 31;
    assert MakeDay(2026, 12, 1) == 20819 && MakeDay(2026, 13, 1) == 20850;
    RangeOfDays(YearMonth(2026, 13), 20819, 20850);
  }

  /** "2026-00" is December 2025: [2025-12-01, 2026-01-01). */
  lemma ExampleMonthZero()
    ensures MonthRangeOf(YearMonth(2026, 0)) == Range(1764547200000, 1767225600000)
  {
    assert DayFromYear(2025) == 20089 && DayFromYear(2026) == 20454;
    DaysBeforeNextMonth(2025, 11);
    assert MakeDay(2026, -1, 1) == 20423 && MakeDay(2026, 0, 1) == 20454;
    RangeOfDays(YearMonth(2026, 0), 20423, 20454);
  }

  /** "0050-03" is March 1950: [1950-03-01, 1950-04-01). */
  lemma ExampleTwoDigitYear()
    ensures MonthRangeOf(YearMonth(50, 3)) == Range(-626054400000, -623376000000)
  {
    assert UtcYear(50) == 1950;
    assert DayFromYear(1950) == -7305;
    assert DaysBeforeMonth(1950, 2) == 59 && DaysBeforeMonth(1950, 3) == 90;
    assert MakeDay(1950, 2, 1) == -7246 && MakeDay(1950, 3, 1) == -7215;
    RangeOfDays(YearMonth(50, 3), -7246, -7215);
  }

  /** February 2024 is 29 days long: [2024-02-01, 2024-03-01). */
  lemma ExampleLeapFebruary()
    ensures MonthRangeOf(YearMonth(2024, 2)) == Range(1706745600000, 1709251200000)
  {
    assert DayFromYear(2024) == 19723;
    assert DaysBeforeMonth(2024, 1) == 31 && DaysBeforeMonth(2024, 2) == 60;
    assert MakeDay(2024, 1, 1) == 19754 && MakeDay(2024, 2, 1) == 19783;
    RangeOfDays(YearMonth(2024, 2), 19754, 19783);
  }

  /** A one-digit month, another separator, surrounding text and a missing
      parameter are all rejected. */
  lemma ExampleRejected()
    ensures ResolveMonth(Some("2026-2")).None? && ResolveMonth(Some("2026/02")).None?
    ensures ResolveMonth(Some(" 2026-02")).None? && ResolveMonth(None).None?
  {
    assert !IsDigit(" 2026-02"[0]);
  }
}
