/**
 * The ISO strings of `Date.prototype.toISOString`, on which lib/time.ts rests: the proleptic
 * Gregorian calendar, printing and reading back an instant, and which instants print in the
 * four-digit-year form the schemas accept.
 */
module Calendar {
  import opened Wrappers
  import opened Text

  const MS_PER_DAY := 86_400_000
  /** The widest instants a `Date` holds, in milliseconds from 1970. */
  const MAX_DATE := 8_640_000_000_000_000
  /** 0000-01-01 and 10000-01-01, in days from 1970. */
  const FIRST_DAY_OF_YEAR_0 := -719_528
  const FIRST_DAY_OF_YEAR_10000 := 2_932_897

  datatype Civil = Civil(year: int, month: int, day: int)

  predicate Leap(year: int) {
    year % 4 == 0 && (year % 100 != 0 || year % 400 == 0)
  }

  function DaysIn(year: int, month: int): int {
    if month == 2 then (if Leap(year) then 29 else 28)
    else if month == 4 || month == 6 || month == 9 || month == 11 then 30
    else 31
  }

  predicate ValidCivil(c: Civil) {
    1 <= c.month <= 12 && 1 <= c.day <= DaysIn(c.year, c.month)
  }

  // ---------------------------------------------------------------- days and civil dates

  // Cycles of 400 years, and the years in them, start on the first of March, so that a leap day
  // is the last day of its year, of its four-year span, of its century and of its cycle.

  /** A day of a cycle: centuries 0..3, four-year spans 0..24, years 0..3, days 0..365. */
  datatype InCycle = InCycle(century: int, span: int, year: int, day: int) {
    predicate Valid() {
      && 0 <= century <= 3 && 0 <= span <= 24 && 0 <= year <= 3 && 0 <= day <= 365
      && (day == 365 ==> year == 3 && (span == 24 ==> century == 3))
    }

    function Year(): int {
      100 * century + 4 * span + year
    }
  }

  function SplitCycle(d: int): (r: InCycle)
    requires 0 <= d < 146097
    ensures r.Valid()
    ensures d == 36524 * r.century + 1461 * r.span + 365 * r.year + r.day
  {
    var century := if d < 36524 then 0 else if d < 73048 then 1 else if d < 109572 then 2 else 3;
    var ofCentury := d - 36524 * century;
    var span := ofCentury / 1461;
    var ofSpan := ofCentury - 1461 * span;
    var year := if ofSpan < 365 then 0 else if ofSpan < 730 then 1 else if ofSpan < 1095 then 2 else 3;
    InCycle(century, span, year, ofSpan - 365 * year)
  }

  /** The day of the year, counted from the first of March, on which a month (March is 0) starts. */
  function MonthStart(month: int): int {
    (153 * month + 2) / 5
  }

  function MonthOf(dayOfYear: int): (month: int)
    requires 0 <= dayOfYear <= 365
    ensures 0 <= month <= 11
    ensures MonthStart(month) <= dayOfYear < MonthStart(month + 1)
  {
    (5 * dayOfYear + 2) / 153
  }

  /** The civil date of a day counted from 1970-01-01. */
  function CivilOfDay(n: int): Civil {
    var p := SplitCycle((n + 719468) % 146097);
    var month := MonthOf(p.day);
    Civil(
      400 * ((n + 719468) / 146097) + p.Year() + if month < 10 then 0 else 1,
      if month < 10 then month + 3 else month - 9,
      p.day - MonthStart(month) + 1
    )
  }

  /** The days before the first of March of a year, from the first of March of year 0. */
  function YearStart(year: int): int {
    365 * year + year / 4 - year / 100 + year / 400
  }

  /** The month, counted from March, and the year it belongs to. */
  function Shifted(c: Civil): (int, int) {
    if c.month <= 2 then (c.year - 1, c.month + 9) else (c.year, c.month - 3)
  }

  /** The day of a year from March to February. */
  function DayOfYear(c: Civil): int {
    MonthStart(Shifted(c).1) + c.day - 1
  }

  /** The day number of a civil date, by the closed formula. */
  function DayOfCivil(c: Civil): int {
    YearStart(Shifted(c).0) + DayOfYear(c) - 719468
  }

  lemma Quotient4(y: int, q: int, r: int)
    requires y == 4 * q + r && 0 <= r < 4
    ensures y / 4 == q
  {
  }

  lemma Quotient100(y: int, q: int, r: int)
    requires y == 100 * q + r && 0 <= r < 100
    ensures y / 100 == q && y % 100 == r
  {
  }

  lemma Quotient400(y: int, q: int, r: int)
    requires y == 400 * q + r && 0 <= r < 400
    ensures y / 400 == q
  {
  }

  /** Leap days counted by the closed formula, from the parts of a year number. */
  lemma LeapDays(cycle: int, p: InCycle)
    requires p.Valid()
    ensures YearStart(400 * cycle + p.Year()) == 146097 * cycle + 36524 * p.century + 1461 * p.span + 365 * p.year
  {
    var y := 400 * cycle + p.Year();
    Quotient4(y, 100 * cycle + 25 * p.century + p.span, p.year);
    Quotient100(y, 4 * cycle + p.century, 4 * p.span + p.year);
    Quotient400(y, cycle, p.Year());
  }

  lemma DayRoundTrip(n: int)
    ensures DayOfCivil(CivilOfDay(n)) == n
  {
    var cycle, d := (n + 719468) / 146097, (n + 719468) % 146097;
    assert n + 719468 == 146097 * cycle + d;
    LeapDays(cycle, SplitCycle(d));
  }

  /** The day after a date. */
  function NextDate(c: Civil): Civil {
    if c.day < DaysIn(c.year, c.month) then Civil(c.year, c.month, c.day + 1)
    else if c.month < 12 then Civil(c.year, c.month + 1, 1)
    else Civil(c.year + 1, 1, 1)
  }

  /** A year from March to February is one day longer when its February is in a leap year. */
  lemma YearLength(year: int)
    ensures YearStart(year + 1) == YearStart(year) + 365 + if Leap(year + 1) then 1 else 0
  {
    QuotientStep(year, 4);
    QuotientStep(year, 100);
    QuotientStep(year, 400);
    Multiples(year + 1);
  }

  lemma QuotientStep(y: int, n: int)
    requires n == 4 || n == 100 || n == 400
    ensures (y + 1) / n == y / n + if (y + 1) % n == 0 then 1 else 0
  {
  }

  lemma Multiples(y: int)
    ensures y % 400 == 0 ==> y % 100 == 0
    ensures y % 100 == 0 ==> y % 4 == 0
  {
  }

  lemma MonthLength(c: Civil)
    requires 1 <= c.month <= 12 && c.month != 2
    ensures MonthStart(Shifted(c).1 + 1) == MonthStart(Shifted(c).1) + DaysIn(c.year, c.month)
  {
  }

  /** The day number of the next date is the next day number, by the month lengths of the calendar. */
  lemma DayOfNextDate(c: Civil)
    requires ValidCivil(c)
    ensures ValidCivil(NextDate(c)) && DayOfCivil(NextDate(c)) == DayOfCivil(c) + 1
  {
    if c.day == DaysIn(c.year, c.month) {
      if c.month == 2 {
        YearLength(c.year - 1);
        assert MonthStart(11) == 337 && MonthStart(0) == 0;
      } else {
        MonthLength(c);
        assert Shifted(NextDate(c)) == (Shifted(c).0, Shifted(c).1 + 1);
      }
      hide YearStart;
      hide Leap;
    }
  }

  lemma DayOfYearFits(c: Civil)
    requires ValidCivil(c)
    ensures YearStart(Shifted(c).0) + DayOfYear(c) < YearStart(Shifted(c).0 + 1)
    ensures MonthStart(Shifted(c).1) <= DayOfYear(c) < MonthStart(Shifted(c).1 + 1)
  {
    YearLength(Shifted(c).0);
  }

  lemma {:induction false} YearsFollow(a: int, b: int)
    requires a <= b
    ensures YearStart(a) <= YearStart(b)
    decreases b - a
  {
    if a < b {
      YearsFollow(a, b - 1);
      YearLength(b - 1);
    }
  }

  /** A day falls into one year. */
  lemma YearIsFixed(y: int, a: int, z: int, b: int)
    requires YearStart(y) + a == YearStart(z) + b
    requires 0 <= a && YearStart(y) + a < YearStart(y + 1)
    requires 0 <= b && YearStart(z) + b < YearStart(z + 1)
    ensures y == z
  {
    hide YearStart;
    if y < z {
      YearsFollow(y + 1, z);
    } else if z < y {
      YearsFollow(z + 1, y);
    }
  }

  /** Different dates have different day numbers. */
  lemma DatesAreDistinct(c: Civil, d: Civil)
    requires ValidCivil(c) && ValidCivil(d) && DayOfCivil(c) == DayOfCivil(d)
    ensures c == d
  {
    hide YearStart;
    hide Shifted;
    hide DayOfYear;
    hide ValidCivil;
    hide MonthStart;
    DayOfYearFits(c);
    DayOfYearFits(d);
    DayOfYearPositive(c);
    DayOfYearPositive(d);
    YearIsFixed(Shifted(c).0, DayOfYear(c), Shifted(d).0, DayOfYear(d));
    SameMonth(c, d);
  }

  lemma DayOfYearPositive(c: Civil)
    requires ValidCivil(c)
    ensures DayOfYear(c) >= 0
  {
  }

  lemma SameMonth(c: Civil, d: Civil)
    requires ValidCivil(c) && ValidCivil(d) && Shifted(c).0 == Shifted(d).0 && DayOfYear(c) == DayOfYear(d)
    requires MonthStart(Shifted(c).1) <= DayOfYear(c) < MonthStart(Shifted(c).1 + 1)
    requires MonthStart(Shifted(d).1) <= DayOfYear(d) < MonthStart(Shifted(d).1 + 1)
    ensures c == d
  {
  }

  /** The date of every next day is the next date; with `DayZero` this fixes the date of every day. */
  lemma DateOfNextDay(n: int)
    ensures CivilOfDay(n + 1) == NextDate(CivilOfDay(n))
  {
    hide CivilOfDay;
    hide DayOfCivil;
    hide NextDate;
    CivilIsValid(n);
    CivilIsValid(n + 1);
    DayRoundTrip(n);
    DayRoundTrip(n + 1);
    DayOfNextDate(CivilOfDay(n));
    DatesAreDistinct(CivilOfDay(n + 1), NextDate(CivilOfDay(n)));
  }

  /** And every date is the date of its day number. */
  lemma DateRoundTrip(c: Civil)
    requires ValidCivil(c)
    ensures CivilOfDay(DayOfCivil(c)) == c
  {
    hide CivilOfDay;
    hide DayOfCivil;
    CivilIsValid(DayOfCivil(c));
    DayRoundTrip(DayOfCivil(c));
    DatesAreDistinct(CivilOfDay(DayOfCivil(c)), c);
  }

  /** Day 0 is 1970-01-01. */
  lemma DayZero()
    ensures CivilOfDay(0) == Civil(1970, 1, 1)
  {
    hide CivilOfDay;
    assert DayOfCivil(Civil(1970, 1, 1)) == 0;
    DateRoundTrip(Civil(1970, 1, 1));
  }

  lemma CivilIsValid(n: int)
    ensures ValidCivil(CivilOfDay(n))
  {
    var cycle := (n + 719468) / 146097;
    var p := SplitCycle((n + 719468) % 146097);
    var month := MonthOf(p.day);
    if month == 11 {
      if p.day == 365 {
        LeapAfter(cycle, p);
      }
    }
  }

  lemma LeapAfter(cycle: int, p: InCycle)
    requires p.Valid() && p.day == 365
    ensures Leap(400 * cycle + p.Year() + 1)
  {
    var y := 400 * cycle + p.Year() + 1;
    assert y == 4 * (100 * cycle + 25 * p.century + p.span + 1);
    if p.span < 24 {
      Quotient100(y, 4 * cycle + p.century, 4 * (p.span + 1));
    } else {
      assert y == 400 * (cycle + 1);
    }
  }

  lemma YearBounds(n: int, cycle: int, p: InCycle)
    requires p.Valid()
    requires n + 719468 == 146097 * cycle + 36524 * p.century + 1461 * p.span + 365 * p.year + p.day
    ensures 0 <= 400 * cycle + p.Year() + (if p.day < 306 then 0 else 1) <= 9999
       <==> FIRST_DAY_OF_YEAR_0 <= n < FIRST_DAY_OF_YEAR_10000
  {
    var d := 36524 * p.century + 1461 * p.span + 365 * p.year + p.day;
    assert p.Year() == 399 && p.day >= 306 <==> d >= 146037;
  }

  /** The year is one of 0..9999 exactly from 0000-01-01 until before 10000-01-01. */
  lemma FourDigitYears(n: int)
    ensures 0 <= CivilOfDay(n).year <= 9999 <==> FIRST_DAY_OF_YEAR_0 <= n < FIRST_DAY_OF_YEAR_10000
  {
    var cycle, d := (n + 719468) / 146097, (n + 719468) % 146097;
    YearBounds(n, cycle, SplitCycle(d));
    var month := MonthOf(SplitCycle(d).day);
    assert month < 10 <==> SplitCycle(d).day < 306;
  }

  /** A Date's year has at most six digits. */
  lemma SixDigitYears(n: int)
    requires -100_000_000 <= n <= 100_000_000
    ensures -999_999 <= CivilOfDay(n).year <= 999_999
  {
    var p := SplitCycle((n + 719468) % 146097);
  }

  // ---------------------------------------------------------------- instants and their ISO strings

  /** The time value of a valid `Date`. */
  type Instant = ms: int | -MAX_DATE <= ms <= MAX_DATE

  predicate FourDigitYear(ms: int) {
    FIRST_DAY_OF_YEAR_0 * MS_PER_DAY <= ms < FIRST_DAY_OF_YEAR_10000 * MS_PER_DAY
  }

  function Digits2(n: int): (s: string)
    requires 0 <= n <= 99
    ensures |s| == 2 && AllDigits(s) && Number2(s, 0) == n
  {
    [Digit(n / 10), Digit(n % 10)]
  }

  function Digits3(n: int): (s: string)
    requires 0 <= n <= 999
    ensures |s| == 3 && AllDigits(s) && 10 * Number2(s, 0) + DigitValue(s[2]) == n
  {
    Digits2(n / 10) + [Digit(n % 10)]
  }

  function Digits4(n: int): (s: string)
    requires 0 <= n <= 9999
    ensures |s| == 4 && AllDigits(s) && 100 * Number2(s, 0) + Number2(s, 2) == n
  {
    Digits2(n / 100) + Digits2(n % 100)
  }

  function Number2(s: string, at: nat): int
    requires at + 2 <= |s| && IsDigit(s[at]) && IsDigit(s[at + 1])
  {
    10 * DigitValue(s[at]) + DigitValue(s[at + 1])
  }

  /** A sign and six digits, the year of an instant outside the years 0 to 9999. */
  predicate HasLongYear(s: string) {
    && |s| >= 7 && (s[0] == '+' || s[0] == '-')
    && IsDigit(s[1]) && IsDigit(s[2]) && IsDigit(s[3]) && IsDigit(s[4]) && IsDigit(s[5]) && IsDigit(s[6])
  }

  function LongYear(s: string): int
    requires HasLongYear(s)
  {
    var size := 1000 * (10 * Number2(s, 1) + DigitValue(s[3])) + 10 * Number2(s, 4) + DigitValue(s[6]);
    if s[0] == '-' then -size else size
  }

  function YearText(year: int): (s: string)
    requires -999_999 <= year <= 999_999
    ensures 0 <= year <= 9999 ==> |s| == 4 && AllDigits(s) && 100 * Number2(s, 0) + Number2(s, 2) == year
    ensures !(0 <= year <= 9999) ==> HasLongYear(s) && |s| == 7 && LongYear(s) == year
  {
    if 0 <= year <= 9999 then Digits4(year)
    else if year < 0 then "-" + Digits3(-year / 1000) + Digits3(-year % 1000)
    else "+" + Digits3(year / 1000) + Digits3(year % 1000)
  }

  /** A time of day. */
  datatype Clock = Clock(hour: int, minute: int, second: int, milli: int) {
    predicate Valid() {
      0 <= hour <= 23 && 0 <= minute <= 59 && 0 <= second <= 59 && 0 <= milli <= 999
    }

    function Seconds(): int {
      3600 * hour + 60 * minute + second
    }
  }

  function ClockOf(time: int): (r: Clock)
    requires 0 <= time < MS_PER_DAY
    ensures r.Valid() && 1000 * r.Seconds() + r.milli == time
  {
    var seconds, milli := time / 1000, time % 1000;
    var minutes, second := seconds / 60, seconds % 60;
    var hour, minute := minutes / 60, minutes % 60;
    Clock(hour, minute, second, milli)
  }

  /** `-MM-DD` */
  function MonthDayText(c: Civil): (s: string)
    requires ValidCivil(c)
    ensures |s| == 6 && s[0] == '-' && IsDigit(s[1]) && IsDigit(s[2]) && s[3] == '-' && IsDigit(s[4]) && IsDigit(s[5])
    ensures Number2(s, 1) == c.month && Number2(s, 4) == c.day
  {
    "-" + Digits2(c.month) + "-" + Digits2(c.day)
  }

  /** `Thh:mm:ss` */
  function TimeText(t: Clock): (s: string)
    requires t.Valid()
    ensures |s| == 9 && s[0] == 'T' && IsDigit(s[1]) && IsDigit(s[2]) && s[3] == ':' && IsDigit(s[4]) && IsDigit(s[5])
    ensures s[6] == ':' && IsDigit(s[7]) && IsDigit(s[8])
    ensures Number2(s, 1) == t.hour && Number2(s, 4) == t.minute && Number2(s, 7) == t.second
  {
    "T" + Digits2(t.hour) + ":" + Digits2(t.minute) + ":" + Digits2(t.second)
  }

  /** `.mmmZ` */
  function MilliText(milli: int): (s: string)
    requires 0 <= milli <= 999
    ensures |s| == 5 && s[0] == '.' && IsDigit(s[1]) && IsDigit(s[2]) && IsDigit(s[3]) && s[4] == 'Z'
    ensures 10 * Number2(s, 1) + DigitValue(s[3]) == milli
  {
    "." + Digits3(milli) + "Z"
  }

  /** The date of an instant and its time of day. */
  function PartsOf(ms: Instant): (parts: (Civil, Clock))
    ensures ValidCivil(parts.0) && -999_999 <= parts.0.year <= 999_999 && parts.1.Valid()
    ensures ms == 1000 * (86_400 * DayOfCivil(parts.0) + parts.1.Seconds()) + parts.1.milli
    ensures 0 <= parts.0.year <= 9999 <==> FourDigitYear(ms)
  {
    var day, time := ms / MS_PER_DAY, ms % MS_PER_DAY;
    CivilIsValid(day);
    SixDigitYears(day);
    DayRoundTrip(day);
    FourDigitYears(day);
    (CivilOfDay(day), ClockOf(time))
  }

  function IsoText(c: Civil, t: Clock): string
    requires ValidCivil(c) && -999_999 <= c.year <= 999_999 && t.Valid()
  {
    YearText(c.year) + MonthDayText(c) + TimeText(t) + MilliText(t.milli)
  }

  /** `new Date(ms).toISOString()`. */
  function IsoString(ms: Instant): string {
    IsoText(PartsOf(ms).0, PartsOf(ms).1)
  }

  /** The instant of a date and a time of day. */
  function InstantOf(c: Civil, t: Clock): int {
    1000 * (86_400 * DayOfCivil(c) + t.Seconds()) + t.milli
  }

  lemma RadixIsFixed(n: int, x: int, a: int, y: int, b: int)
    requires n == 60 || n == 1000 || n == 86_400
    requires n * x + a == n * y + b && 0 <= a < n && 0 <= b < n
    ensures x == y && a == b
  {
  }

  lemma ClockIsFixed(a: Clock, day: int, b: Clock, other: int)
    requires a.Valid() && b.Valid()
    requires 1000 * (86_400 * day + a.Seconds()) + a.milli == 1000 * (86_400 * other + b.Seconds()) + b.milli
    ensures a == b && day == other
  {
    var s, t := a.Seconds(), b.Seconds();
    assert 0 <= s < 86_400 && 0 <= t < 86_400;
    RadixIsFixed(1000, 86_400 * day + s, a.milli, 86_400 * other + t, b.milli);
    RadixIsFixed(86_400, day, s, other, t);
    RadixIsFixed(60, 60 * a.hour + a.minute, a.second, 60 * b.hour + b.minute, b.second);
    RadixIsFixed(60, a.hour, a.minute, b.hour, b.minute);
  }

  /** The ISO string of the instant of a valid date and time prints just these. */
  lemma IsoOfParts(c: Civil, t: Clock)
    requires ValidCivil(c) && t.Valid() && -MAX_DATE <= InstantOf(c, t) <= MAX_DATE
    ensures -999_999 <= c.year <= 999_999 && IsoString(InstantOf(c, t)) == IsoText(c, t)
  {
    hide DayOfCivil;
    hide ValidCivil;
    hide IsoText;
    var parts := PartsOf(InstantOf(c, t));
    ClockIsFixed(parts.1, DayOfCivil(parts.0), t, DayOfCivil(c));
    DatesAreDistinct(parts.0, c);
  }

  lemma Midnight(c: Civil, day: int)
    requires ValidCivil(c) && DayOfCivil(c) == day && -100_000_000 <= day <= 100_000_000
    ensures -999_999 <= c.year <= 999_999 && IsoString(MS_PER_DAY * day) == IsoText(c, Clock(0, 0, 0, 0))
  {
    hide IsoString;
    hide IsoText;
    hide DayOfCivil;
    hide ValidCivil;
    IsoOfParts(c, Clock(0, 0, 0, 0));
  }

  /** What a Date prints at its start and at the two ends of its range. */
  lemma IsoSamples()
    ensures IsoString(0) == IsoText(Civil(1970, 1, 1), Clock(0, 0, 0, 0))
    ensures IsoString(-MAX_DATE) == IsoText(Civil(-271821, 4, 20), Clock(0, 0, 0, 0))
    ensures IsoString(MAX_DATE) == IsoText(Civil(275760, 9, 13), Clock(0, 0, 0, 0))
  {
    hide IsoString;
    hide IsoText;
    SampleDays();
    hide DayOfCivil;
    Midnight(Civil(1970, 1, 1), 0);
    Midnight(Civil(-271821, 4, 20), -100_000_000);
    Midnight(Civil(275760, 9, 13), 100_000_000);
  }

  lemma SampleDays()
    ensures DayOfCivil(Civil(1970, 1, 1)) == 0
    ensures DayOfCivil(Civil(-271821, 4, 20)) == -100_000_000 && DayOfCivil(Civil(275760, 9, 13)) == 100_000_000
  {
  }

  /** The shape `YYYY-MM-DDThh:mm:ss` at the start of a string. */
  predicate HasStamp(s: string) {
    && |s| >= 19
    && IsDigit(s[0]) && IsDigit(s[1]) && IsDigit(s[2]) && IsDigit(s[3]) && s[4] == '-'
    && IsDigit(s[5]) && IsDigit(s[6]) && s[7] == '-' && IsDigit(s[8]) && IsDigit(s[9]) && s[10] == 'T'
    && IsDigit(s[11]) && IsDigit(s[12]) && s[13] == ':' && IsDigit(s[14]) && IsDigit(s[15]) && s[16] == ':'
    && IsDigit(s[17]) && IsDigit(s[18])
  }

  function StampDate(s: string): Civil
    requires HasStamp(s)
  {
    Civil(100 * Number2(s, 0) + Number2(s, 2), Number2(s, 5), Number2(s, 8))
  }

  function StampClock(s: string): Clock
    requires HasStamp(s)
  {
    Clock(Number2(s, 11), Number2(s, 14), Number2(s, 17), 0)
  }

  /** Seconds from 1970 of the instant a stamp denotes. */
  function StampSeconds(s: string): int
    requires HasStamp(s)
  {
    86_400 * DayOfCivil(StampDate(s)) + StampClock(s).Seconds()
  }

  /** What `z.string().datetime()` accepts: a real date and time in UTC, with any number of fractional digits. */
  predicate IsDatetime(s: string) {
    && HasStamp(s)
    && ValidCivil(StampDate(s)) && StampClock(s).Valid()
    && |s| >= 20 && s[|s| - 1] == 'Z'
    && (|s| == 20 || (|s| >= 22 && s[19] == '.' && forall i | 20 <= i < |s| - 1 :: IsDigit(s[i])))
  }

  /** The milliseconds from 1970 of a date and the rest of an ISO string, which stands behind four characters. */
  function Milliseconds(c: Civil, s: string): int
    requires IsDatetime(s) && |s| == 24
  {
    1000 * (86_400 * DayOfCivil(c) + StampClock(s).Seconds()) + 10 * Number2(s, 20) + DigitValue(s[22])
  }

  /** Reads back an ISO string with three fractional digits and a year of four digits, or of a sign and six. */
  function ParseIso(s: string): Option<int> {
    if |s| == 24 && IsDatetime(s) then Some(Milliseconds(StampDate(s), s))
    else if |s| == 27 && HasLongYear(s) && IsDatetime(YearText(2000) + s[7..]) then
      var rest := YearText(2000) + s[7..];
      var c := Civil(LongYear(s), StampDate(rest).month, StampDate(rest).day);
      if ValidCivil(c) then Some(Milliseconds(c, rest)) else None
    else None
  }

  lemma IsoTextForm(c: Civil, t: Clock)
    requires ValidCivil(c) && 0 <= c.year <= 9999 && t.Valid()
    ensures var s := IsoText(c, t);
      && |s| == 24 && HasStamp(s) && StampDate(s) == c && StampClock(s) == Clock(t.hour, t.minute, t.second, 0)
      && s[19] == '.' && IsDigit(s[20]) && IsDigit(s[21]) && IsDigit(s[22]) && s[23] == 'Z'
      && 10 * Number2(s, 20) + DigitValue(s[22]) == t.milli
  {
    var s, year, date, time, milli := IsoText(c, t), YearText(c.year), MonthDayText(c), TimeText(t), MilliText(t.milli);
    assert forall k | 0 <= k < 4 :: s[k] == year[k];
    assert forall k | 4 <= k < 10 :: s[k] == date[k - 4];
    assert forall k | 10 <= k < 19 :: s[k] == time[k - 10];
    assert forall k | 19 <= k < 24 :: s[k] == milli[k - 19];
  }

  /** The first 19 characters of an ISO string in the four-digit form denote its whole seconds. */
  lemma StampOfInstant(ms: Instant)
    requires FourDigitYear(ms)
    ensures HasStamp(IsoString(ms)) && StampSeconds(IsoString(ms)) == ms / 1000
  {
    var parts := PartsOf(ms);
    IsoTextForm(parts.0, parts.1);
  }

  lemma IsoTextReads(c: Civil, t: Clock)
    requires ValidCivil(c) && 0 <= c.year <= 9999 && t.Valid()
    ensures var s := IsoText(c, t);
      |s| == 24 && IsDatetime(s) && StampDate(s) == c
      && forall d: Civil :: Milliseconds(d, s) == 1000 * (86_400 * DayOfCivil(d) + t.Seconds()) + t.milli
  {
    hide IsoText;
    hide DayOfCivil;
    IsoTextForm(c, t);
  }

  lemma SameMonthDay(c: Civil, d: Civil)
    requires ValidCivil(c) && ValidCivil(d) && c.month == d.month && c.day == d.day
    ensures MonthDayText(c) == MonthDayText(d)
  {
  }

  lemma FrontAndRest(front: string, rest: string)
    ensures (front + rest)[|front|..] == rest
    ensures forall i | 0 <= i < |front| :: (front + rest)[i] == front[i]
  {
  }

  lemma LongYearInFront(year: string, rest: string)
    requires HasLongYear(year) && |year| == 7
    ensures HasLongYear(year + rest) && LongYear(year + rest) == LongYear(year) && (year + rest)[7..] == rest
  {
    FrontAndRest(year, rest);
  }

  function RestOfIso(c: Civil, t: Clock): (s: string)
    requires ValidCivil(c) && t.Valid()
    ensures |s| == 20
  {
    MonthDayText(c) + TimeText(t) + MilliText(t.milli)
  }

  lemma IsoTextSplits(c: Civil, t: Clock)
    requires ValidCivil(c) && -999_999 <= c.year <= 999_999 && t.Valid()
    ensures IsoText(c, t) == YearText(c.year) + RestOfIso(c, t)
  {
    hide YearText;
    hide MonthDayText;
    hide TimeText;
    hide MilliText;
  }

  /** A long year in front of the same month, day and time. */
  lemma LongTextParts(c: Civil, t: Clock)
    requires ValidCivil(c) && -999_999 <= c.year <= 999_999 && !(0 <= c.year <= 9999) && t.Valid()
    ensures var s := IsoText(c, t);
      && |s| == 27 && HasLongYear(s) && LongYear(s) == c.year
      && ValidCivil(Civil(2000, c.month, c.day))
      && YearText(2000) + s[7..] == IsoText(Civil(2000, c.month, c.day), t)
  {
    hide YearText;
    hide MonthDayText;
    hide RestOfIso;
    hide IsoText;
    hide HasLongYear;
    hide LongYear;
    var same := Civil(2000, c.month, c.day);
    assert ValidCivil(same) by { assert Leap(2000); }
    SameRest(c, same, t);
    IsoTextSplits(c, t);
    IsoTextSplits(same, t);
    LongYearInFront(YearText(c.year), RestOfIso(c, t));
  }

  lemma SameRest(c: Civil, d: Civil, t: Clock)
    requires ValidCivil(c) && ValidCivil(d) && c.month == d.month && c.day == d.day && t.Valid()
    ensures RestOfIso(c, t) == RestOfIso(d, t)
  {
    SameMonthDay(c, d);
  }

  lemma ParseIsoText(c: Civil, t: Clock)
    requires ValidCivil(c) && -999_999 <= c.year <= 999_999 && t.Valid()
    ensures ParseIso(IsoText(c, t)) == Some(1000 * (86_400 * DayOfCivil(c) + t.Seconds()) + t.milli)
  {
    hide IsoText;
    hide DayOfCivil;
    hide YearText;
    hide IsDatetime;
    hide Milliseconds;
    if 0 <= c.year <= 9999 {
      IsoTextReads(c, t);
    } else {
      LongTextParts(c, t);
      IsoTextReads(Civil(2000, c.month, c.day), t);
    }
  }

  /** Outside the years 0 to 9999 an ISO string starts with a sign. */
  lemma LongIsoStartsWithSign(ms: Instant)
    requires !FourDigitYear(ms)
    ensures |IsoString(ms)| == 27 && IsoString(ms)[0] in {'+', '-'}
  {
    hide IsoText;
    LongTextParts(PartsOf(ms).0, PartsOf(ms).1);
  }

  /** Every ISO string reads back as the instant it was printed from, in every year a Date holds. */
  lemma IsoRoundTrip(ms: Instant)
    ensures ParseIso(IsoString(ms)) == Some(ms)
  {
    hide ParseIso;
    hide IsoText;
    hide DayOfCivil;
    ParseIsoText(PartsOf(ms).0, PartsOf(ms).1);
  }

  /** So no two instants print alike. */
  lemma IsoIsInjective(a: Instant, b: Instant)
    ensures IsoString(a) == IsoString(b) <==> a == b
  {
    hide ParseIso;
    hide IsoString;
    IsoRoundTrip(a);
    IsoRoundTrip(b);
  }

  /** The schemas' datetime check accepts an ISO string exactly when its year has four digits. */
  lemma IsoIsDatetime(ms: Instant)
    ensures IsDatetime(IsoString(ms)) <==> FourDigitYear(ms)
  {
    var parts := PartsOf(ms);
    if FourDigitYear(ms) {
      IsoTextForm(parts.0, parts.1);
    } else {
      assert IsoString(ms)[0] == YearText(parts.0.year)[0];
    }
  }

  lemma YearIsOneLine(year: int)
    requires -999_999 <= year <= 999_999
    ensures '\n' !in YearText(year)
  {
    assert forall n | 0 <= n <= 999 :: '\n' !in Digits3(n);
  }

  lemma RestIsOneLine(c: Civil, t: Clock)
    requires ValidCivil(c) && t.Valid()
    ensures '\n' !in MonthDayText(c) && '\n' !in TimeText(t) && '\n' !in MilliText(t.milli)
  {
    hide MonthDayText;
    hide TimeText;
    hide MilliText;
  }

  /** Every ISO string has at least 24 characters, none of them a line break. */
  lemma IsoIsOneLine(ms: Instant)
    ensures |IsoString(ms)| >= 24 && '\n' !in IsoString(ms)
  {
    var c, t := PartsOf(ms).0, PartsOf(ms).1;
    hide YearText;
    hide MonthDayText;
    hide TimeText;
    hide MilliText;
    hide PartsOf;
    YearIsOneLine(c.year);
    RestIsOneLine(c, t);
  }

  lemma YearIsVisible(year: int)
    requires -999_999 <= year <= 999_999
    ensures |YearText(year)| >= 4 && !IsSpace(YearText(year)[0])
  {
    assert !IsSpace('+') && !IsSpace('-');
    if 0 <= year <= 9999 {
      assert IsDigit(YearText(year)[0]);
    }
  }

  /** No ISO string is blank. */
  lemma IsoIsVisible(ms: Instant)
    ensures !Blank(IsoString(ms))
  {
    var c, t := PartsOf(ms).0, PartsOf(ms).1;
    YearIsVisible(c.year);
    hide YearText;
    hide MonthDayText;
    hide TimeText;
    hide MilliText;
    hide PartsOf;
    hide IsSpace;
    var s := IsoText(c, t);
    assert s[0] == YearText(c.year)[0];
  }
}
