/**
 * Calendar dates as Python's `datetime.date` sees them: proleptic Gregorian, years 1 to 9999,
 * ordered chronologically; and the `DD/MM/YYYY` text form the program reads and writes with
 * `strftime('%d/%m/%Y')` and `strptime(..., '%d/%m/%Y')`.
 */
module Dates {
  import opened Common

  datatype Ymd = Ymd(year: int, month: int, day: int)

  const MinYear := 1
  const MaxYear := 9999

  predicate IsLeap(y: int)
  {
    y % 4 == 0 && (y % 100 != 0 || y % 400 == 0)
  }

  function DaysInMonth(y: int, m: int): (r: int)
    requires 1 <= m <= 12
    ensures 28 <= r <= 31
  {
    if m == 2 then (if IsLeap(y) then 29 else 28)
    else if m == 4 || m == 6 || m == 9 || m == 11 then 30
    else 31
  }

  /** What the `date` constructor accepts. */
  predicate IsCalendarDate(d: Ymd)
  {
    && MinYear <= d.year <= MaxYear
    && 1 <= d.month <= 12
    && 1 <= d.day <= DaysInMonth(d.year, d.month)
  }

  /** A real calendar date, like every Python `date` object. */
  type Date = d: Ymd | IsCalendarDate(d) witness Ymd(1, 1, 1)

  /** `a < b` on Python dates. */
  predicate Before(a: Date, b: Date)
  {
    || a.year < b.year
    || (a.year == b.year && a.month < b.month)
    || (a.year == b.year && a.month == b.month && a.day < b.day)
  }

  /** `a <= b` on Python dates. */
  predicate NotAfter(a: Date, b: Date)
  {
    !Before(b, a)
  }

  // ---------------------------------------------------------------------------
  // Day numbers

  function DaysInYear(y: int): int
  {
    if IsLeap(y) then 366 else 365
  }

  /** Days in the years 1 .. y-1. */
  function DaysBeforeYear(y: int): (r: int)
    requires y >= 1
    ensures r >= 0
    decreases y
  {
    if y == 1 then 0 else DaysBeforeYear(y - 1) + DaysInYear(y - 1)
  }

  /** Days in the months before `m` of year `y`. */
  function DaysBeforeMonth(y: int, m: int): int
    requires 1 <= m <= 12
  {
    var common := [0, 31, 59, 90, 120, 151, 181, 212, 243, 273, 304, 334][m - 1];
    if m > 2 && IsLeap(y) then common + 1 else common
  }

  /** `date.toordinal()`: 1 for 0001-01-01, one more for each following day. */
  function Ordinal(d: Date): (r: int)
    ensures r >= 1
  {
    DaysBeforeYear(d.year) + DaysBeforeMonth(d.year, d.month) + d.day
  }

  lemma MonthEnds(y: int, m: int)
    requires 1 <= m <= 12
    ensures m < 12 ==> DaysBeforeMonth(y, m) + DaysInMonth(y, m) == DaysBeforeMonth(y, m + 1)
    ensures m == 12 ==> DaysBeforeMonth(y, m) + DaysInMonth(y, m) == DaysInYear(y)
  {
  }

  lemma {:induction false} MonthsIncrease(y: int, m1: int, m2: int)
    requires 1 <= m1 < m2 <= 12
    ensures DaysBeforeMonth(y, m1) + DaysInMonth(y, m1) <= DaysBeforeMonth(y, m2)
    decreases m2 - m1
  {
    MonthEnds(y, m1);
    if m1 + 1 < m2 {
      MonthsIncrease(y, m1 + 1, m2);
    }
  }

  lemma DayOfYearBound(d: Date)
    ensures DaysBeforeMonth(d.year, d.month) + d.day <= DaysInYear(d.year)
  {
    MonthEnds(d.year, d.month);
    if d.month < 12 {
      MonthsIncrease(d.year, d.month, 12);
      MonthEnds(d.year, 12);
    }
  }

  lemma {:induction false} YearsIncrease(y1: int, y2: int)
    requires 1 <= y1 < y2
    ensures DaysBeforeYear(y1) + DaysInYear(y1) <= DaysBeforeYear(y2)
    decreases y2
  {
    if y1 + 1 < y2 {
      YearsIncrease(y1, y2 - 1);
    }
  }

  lemma BeforeOrdinal(a: Date, b: Date)
    requires Before(a, b)
    ensures Ordinal(a) < Ordinal(b)
  {
    if a.year < b.year {
      DayOfYearBound(a);
      YearsIncrease(a.year, b.year);
    } else if a.month < b.month {
      MonthsIncrease(a.year, a.month, b.month);
    }
  }

  /** The day number orders dates exactly as Python compares them. */
  lemma OrdinalOrder(a: Date, b: Date)
    ensures Before(a, b) <==> Ordinal(a) < Ordinal(b)
    ensures NotAfter(a, b) <==> Ordinal(a) <= Ordinal(b)
    ensures a == b <==> Ordinal(a) == Ordinal(b)
  {
    if Before(a, b) {
      BeforeOrdinal(a, b);
    } else if Before(b, a) {
      BeforeOrdinal(b, a);
    }
  }

  /** Months numbered consecutively, so that a year-month key is one integer. */
  function MonthIndex(d: Date): int
  {
    d.year * 12 + d.month - 1
  }

  /** A later date never falls in an earlier month. */
  lemma MonthIndexMonotone(a: Date, b: Date)
    requires Ordinal(a) <= Ordinal(b)
    ensures MonthIndex(a) <= MonthIndex(b)
  {
    OrdinalOrder(a, b);
  }

  // ---------------------------------------------------------------------------
  // Text

  predicate IsDigit(c: char)
  {
    '0' <= c <= '9'
  }

  function Digit(n: int): (c: char)
    requires 0 <= n <= 9
    ensures IsDigit(c)
  {
    (48 + n) as char
  }

  function DigitValue(c: char): (n: int)
    requires IsDigit(c)
    ensures 0 <= n <= 9 && Digit(n) == c
  {
    c as int - 48
  }

  function Pad2(n: int): (s: string)
    requires 0 <= n <= 99
    ensures |s| == 2
  {
    [Digit(n / 10), Digit(n % 10)]
  }

  function Pad4(n: int): (s: string)
    requires 0 <= n <= 9999
    ensures |s| == 4
  {
    Pad2(n / 100) + Pad2(n % 100)
  }

  /** A natural number in decimal without leading zeros. */
  function Decimal(n: nat): (s: string)
    ensures 1 <= |s|
    ensures n < 10 ==> |s| == 1
    ensures n < 100 ==> |s| <= 2
    ensures n < 1000 ==> |s| <= 3
    ensures forall i :: 0 <= i < |s| ==> IsDigit(s[i])
    decreases n
  {
    if n < 10 then [Digit(n)] else Decimal(n / 10) + [Digit(n % 10)]
  }

  lemma FourDigitDecimal(n: nat)
    requires 1000 <= n <= 9999
    ensures Decimal(n) == Pad4(n)
  {
    var hi, lo := n / 100, n % 100;
    assert n / 10 == hi * 10 + lo / 10 && n % 10 == lo % 10;
    assert Decimal(hi / 10) == [Digit(hi / 10)];
    assert Decimal(hi) == Pad2(hi);
    assert Decimal(n / 10) == Pad2(hi) + [Digit(lo / 10)];
  }

  /**
   * `date.strftime('%d/%m/%Y')`: two-digit day and month; the year as glibc's strftime
   * renders `%Y`, in decimal without zero padding.
   */
  function FormatBr(d: Date): string
  {
    Pad2(d.day) + "/" + Pad2(d.month) + "/" + Decimal(d.year)
  }

  /** The value of two ASCII digits. */
  function TwoDigits(t: string): (n: int)
    requires |t| == 2 && IsDigit(t[0]) && IsDigit(t[1])
    ensures 0 <= n <= 99 && Pad2(n) == t
  {
    DigitValue(t[0]) * 10 + DigitValue(t[1])
  }

  /** A `%d` field, which `strptime` matches with `3[01]|[12]\d|0[1-9]|[1-9]| [1-9]`. */
  function DayField(t: string): Option<int>
  {
    if |t| == 1 && '1' <= t[0] <= '9' then Some(DigitValue(t[0]))
    else if |t| == 2 && t[0] == ' ' && '1' <= t[1] <= '9' then Some(DigitValue(t[1]))
    else if |t| == 2 && IsDigit(t[0]) && IsDigit(t[1]) && 1 <= TwoDigits(t) <= 31 then Some(TwoDigits(t))
    else None
  }

  /** A `%m` field, which `strptime` matches with `1[0-2]|0[1-9]|[1-9]`. */
  function MonthField(t: string): Option<int>
  {
    if |t| == 1 && '1' <= t[0] <= '9' then Some(DigitValue(t[0]))
    else if |t| == 2 && IsDigit(t[0]) && IsDigit(t[1]) && 1 <= TwoDigits(t) <= 12 then Some(TwoDigits(t))
    else None
  }

  /** A `%Y` field, which `strptime` matches with exactly four digits. */
  function YearField(t: string): Option<int>
  {
    if |t| == 4 && IsDigit(t[0]) && IsDigit(t[1]) && IsDigit(t[2]) && IsDigit(t[3]) then
      Some(TwoDigits(t[..2]) * 100 + TwoDigits(t[2..]))
    else None
  }

  function Assemble(dayText: string, monthText: string, yearText: string): Option<Date>
  {
    match (DayField(dayText), MonthField(monthText), YearField(yearText))
    case (Some(d), Some(m), Some(y)) =>
      if IsCalendarDate(Ymd(y, m, d)) then Some(Ymd(y, m, d)) else None
    case _ => None
  }

  function ParseAfterDay(dayText: string, rest: string): Option<Date>
  {
    if |rest| >= 2 && rest[1] == '/' then Assemble(dayText, rest[..1], rest[2..])
    else if |rest| >= 3 && rest[2] == '/' then Assemble(dayText, rest[..2], rest[3..])
    else None
  }

  /**
   * `datetime.strptime(s, '%d/%m/%Y').date()`, or None where it raises `ValueError`:
   * the text must be a day field, '/', a month field, '/', a year field and nothing more,
   * and name a real calendar date (year 0 and 31/02 are refused).
   */
  function ParseBr(s: string): Option<Date>
  {
    if |s| >= 2 && s[1] == '/' then ParseAfterDay(s[..1], s[2..])
    else if |s| >= 3 && s[2] == '/' then ParseAfterDay(s[..2], s[3..])
    else None
  }

  // ---------------------------------------------------------------------------
  // The accepted spellings of a date

  /** The texts `%d` accepts for day `n`: `07`, `7` and ` 7`, or `17`. */
  function DayTexts(n: int): set<string>
  {
    (if 1 <= n <= 9 then {[Digit(n)], [' ', Digit(n)]} else {})
    + (if 1 <= n <= 31 then {Pad2(n)} else {})
  }

  /** The texts `%m` accepts for month `n`: `07` and `7`, or `11`. */
  function MonthTexts(n: int): set<string>
  {
    (if 1 <= n <= 9 then {[Digit(n)]} else {})
    + (if 1 <= n <= 12 then {Pad2(n)} else {})
  }

  /** Every text that `strptime(..., '%d/%m/%Y')` reads as `d`. */
  function Spellings(d: Date): set<string>
  {
    set dt, mt | dt in DayTexts(d.day) && mt in MonthTexts(d.month) :: dt + "/" + mt + "/" + Pad4(d.year)
  }

  lemma DayFieldSpelling(t: string, n: int)
    ensures DayField(t) == Some(n) <==> t in DayTexts(n)
  {
    if t in DayTexts(n) {
      if 1 <= n <= 9 && t == [Digit(n)] {
      } else if 1 <= n <= 9 && t == [' ', Digit(n)] {
      } else {
        assert t == Pad2(n);
      }
    }
    if DayField(t) == Some(n) {
      if |t| == 1 {
        assert t == [Digit(n)];
      } else if t[0] == ' ' {
        assert t == [' ', Digit(n)];
      }
    }
  }

  lemma MonthFieldSpelling(t: string, n: int)
    ensures MonthField(t) == Some(n) <==> t in MonthTexts(n)
  {
    if t in MonthTexts(n) {
      if 1 <= n <= 9 && t == [Digit(n)] {
      } else {
        assert t == Pad2(n);
      }
    }
    if MonthField(t) == Some(n) && |t| == 1 {
      assert t == [Digit(n)];
    }
  }

  lemma YearFieldSpelling(t: string, n: int)
    ensures YearField(t) == Some(n) <==> 0 <= n <= 9999 && t == Pad4(n)
  {
    if YearField(t) == Some(n) {
      YearFieldRead(t);
    }
    if 0 <= n <= 9999 && t == Pad4(n) {
      assert t[..2] == Pad2(n / 100) && t[2..] == Pad2(n % 100);
    }
  }

  /** A year field reads back as the four digits it was written with. */
  lemma YearFieldRead(t: string)
    requires YearField(t).Some?
    ensures 0 <= YearField(t).value <= 9999 && t == Pad4(YearField(t).value)
  {
    var hi, lo := TwoDigits(t[..2]), TwoDigits(t[2..]);
    var n := hi * 100 + lo;
    assert n / 100 == hi && n % 100 == lo;
    assert t == t[..2] + t[2..];
  }

  /** Splitting a spelling at its separators gives back the three fields. */
  lemma SplitSpelling(dt: string, mt: string, yt: string)
    requires |dt| in {1, 2} && |mt| in {1, 2} && |yt| == 4
    requires |dt| == 2 ==> dt[1] != '/'
    requires |mt| == 2 ==> mt[1] != '/'
    ensures ParseBr(dt + "/" + mt + "/" + yt) == Assemble(dt, mt, yt)
  {
    var s := dt + "/" + mt + "/" + yt;
    var rest := mt + "/" + yt;
    if |dt| == 1 {
      assert s[1] == '/' && s[..1] == dt && s[2..] == rest;
    } else {
      assert s[1] == dt[1] && s[2] == '/' && s[..2] == dt && s[3..] == rest;
    }
    if |mt| == 1 {
      assert rest[1] == '/' && rest[..1] == mt && rest[2..] == yt;
    } else {
      assert rest[1] == mt[1] && rest[2] == '/' && rest[..2] == mt && rest[3..] == yt;
    }
  }

  lemma ParseBrComplete(s: string, d: Date)
    requires s in Spellings(d)
    ensures ParseBr(s) == Some(d)
  {
    var dt, mt :| dt in DayTexts(d.day) && mt in MonthTexts(d.month)
                  && s == dt + "/" + mt + "/" + Pad4(d.year);
    DayFieldSpelling(dt, d.day);
    MonthFieldSpelling(mt, d.month);
    YearFieldSpelling(Pad4(d.year), d.year);
    SplitSpelling(dt, mt, Pad4(d.year));
  }

  lemma ParseBrSound(s: string, d: Date)
    requires ParseBr(s) == Some(d)
    ensures s in Spellings(d)
  {
    var dt, rest := SplitDay(s);
    var mt, yt := SplitMonth(dt, rest);
    assert Assemble(dt, mt, yt) == Some(d);
    DayFieldSpelling(dt, d.day);
    MonthFieldSpelling(mt, d.month);
    YearFieldSpelling(yt, d.year);
    assert s == dt + "/" + mt + "/" + Pad4(d.year);
  }

  /** The day field and the rest of a text `strptime` accepts. */
  lemma SplitDay(s: string) returns (dt: string, rest: string)
    requires ParseBr(s).Some?
    ensures s == dt + "/" + rest && ParseBr(s) == ParseAfterDay(dt, rest)
  {
    var i := if s[1] == '/' then 1 else 2;
    dt, rest := s[..i], s[i + 1..];
    assert s == dt + "/" + rest;
  }

  /** The month and year fields of the rest of a text `strptime` accepts. */
  lemma SplitMonth(dt: string, rest: string) returns (mt: string, yt: string)
    requires ParseAfterDay(dt, rest).Some?
    ensures rest == mt + "/" + yt && ParseAfterDay(dt, rest) == Assemble(dt, mt, yt)
  {
    var j := if rest[1] == '/' then 1 else 2;
    mt, yt := rest[..j], rest[j + 1..];
    assert rest == mt + "/" + yt;
  }

  /** `strptime` reads `s` as `d` exactly when `s` is one of the spellings of `d`. */
  lemma ParseBrSpellings(s: string, d: Date)
    ensures ParseBr(s) == Some(d) <==> s in Spellings(d)
  {
    if s in Spellings(d) {
      ParseBrComplete(s, d);
    }
    if ParseBr(s) == Some(d) {
      ParseBrSound(s, d);
    }
  }

  /** Text that names no real date, such as `31/02/2024`, is refused. */
  lemma ParseBrRefusesNonDates(s: string)
    requires forall d: Date :: s !in Spellings(d)
    ensures ParseBr(s) == None
  {
    if ParseBr(s).Some? {
      ParseBrSpellings(s, ParseBr(s).value);
    }
  }

  /** Parsing the formatted text of a date with a four-digit year gives the date back. */
  lemma FormatParseRoundTrip(d: Date)
    requires d.year >= 1000
    ensures ParseBr(FormatBr(d)) == Some(d)
  {
    FourDigitDecimal(d.year);
    assert Pad2(d.day) in DayTexts(d.day);
    assert Pad2(d.month) in MonthTexts(d.month);
    assert FormatBr(d) in Spellings(d);
    ParseBrSpellings(FormatBr(d), d);
  }

  /** Below year 1000 the year has fewer than four digits and the formatted text no longer parses. */
  lemma ShortYearNotReparsed(d: Date)
    requires d.year < 1000
    ensures ParseBr(FormatBr(d)) == None
  {
    var s := FormatBr(d);
    var rest := Pad2(d.month) + "/" + Decimal(d.year);
    assert s[1] != '/' && s[2] == '/' && s[3..] == rest;
    assert rest[1] != '/' && rest[2] == '/' && rest[3..] == Decimal(d.year);
  }
}
