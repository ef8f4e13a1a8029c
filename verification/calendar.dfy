/**
  The proleptic Gregorian calendar as pandas' datetime accessors see it: leap years,
  days since 0001-01-01, weekdays (Monday first) and the ISO 8601 week number
  (section 4.1.4 of ISO 8601:2004, calendar week number).
*/
module Calendar {

  datatype Date = Date(year: int, month: int, day: int)

  predicate IsLeapYear(y: int) {
    y % 4 == 0 && (y % 100 != 0 || y % 400 == 0)
  }

  function DaysInMonth(y: int, m: int): (n: int)
    requires 1 <= m <= 12
    ensures 28 <= n <= 31
    ensures n == 29 <==> m == 2 && IsLeapYear(y)
  {
    if m == 2 then (if IsLeapYear(y) then 29 else 28)
    else if m == 4 || m == 6 || m == 9 || m == 11 then 30
    else 31
  }

  predicate ValidDate(d: Date) {
    1 <= d.month <= 12 && 1 <= d.day <= DaysInMonth(d.year, d.month)
  }

  /** A date that exists in the Gregorian calendar (any year). */
  type CivilDate = d: Date | ValidDate(d) witness Date(1970, 1, 1)

  function DaysInYear(y: int): int {
    if IsLeapYear(y) then 366 else 365
  }

  /** Days of year `y` before the first of month `m` (`m == 13` gives the whole year). */
  function DaysBeforeMonth(y: int, m: int): int
    requires 1 <= m <= 13
  {
    var common := [0, 31, 59, 90, 120, 151, 181, 212, 243, 273, 304, 334, 365][m - 1];
    if m > 2 && IsLeapYear(y) then common + 1 else common
  }

  lemma {:induction false} DaysBeforeMonthStep(y: int, m: int)
    requires 1 <= m <= 12
    ensures DaysBeforeMonth(y, m + 1) == DaysBeforeMonth(y, m) + DaysInMonth(y, m)
    ensures DaysBeforeMonth(y, 13) == DaysInYear(y)
  {
  }

  /** Days from 0001-01-01 to 1 January of year `y`. */
  function DaysBeforeYear(y: int): int {
    var p := y - 1;
    365 * p + p / 4 - p / 100 + p / 400
  }

  lemma {:induction false} DaysBeforeYearStep(y: int)
    ensures DaysBeforeYear(y + 1) == DaysBeforeYear(y) + DaysInYear(y)
  {
    QuarterStep(y);
    CenturyStep(y);
    QuadCenturyStep(y);
  }

  /** Each of the three leap-day counts grows by one exactly at a multiple of its period. */
  lemma {:induction false} QuarterStep(y: int)
    ensures y / 4 - (y - 1) / 4 == (if y % 4 == 0 then 1 else 0)
  {
  }

  lemma {:induction false} CenturyStep(y: int)
    ensures y / 100 - (y - 1) / 100 == (if y % 100 == 0 then 1 else 0)
  {
  }

  lemma {:induction false} QuadCenturyStep(y: int)
    ensures y / 400 - (y - 1) / 400 == (if y % 400 == 0 then 1 else 0)
  {
  }

  /** 1-based position of the date in its year (`%j`). */
  function DayOfYear(d: CivilDate): (n: int)
    ensures 1 <= n <= DaysInYear(d.year)
  {
    DaysBeforeMonthStep(d.year, d.month);
    DaysBeforeMonthBound(d.year, d.month + 1);
    DaysBeforeMonth(d.year, d.month) + d.day
  }

  lemma {:induction false} DaysBeforeMonthBound(y: int, m: int)
    requires 1 <= m <= 13
    ensures 0 <= DaysBeforeMonth(y, m) <= DaysInYear(y)
  {
  }

  /** Days since 0001-01-01, which was a Monday. */
  function DayNumber(d: CivilDate): int {
    DaysBeforeYear(d.year) + DayOfYear(d) - 1
  }

  /** Day of the week, 0 = Monday ... 6 = Sunday (`dt.weekday`). */
  function Weekday(d: CivilDate): (w: int)
    ensures 0 <= w < 7
  {
    DayNumber(d) % 7
  }

  /** `dt.day_name()`. */
  function WeekdayName(w: int): string
    requires 0 <= w < 7
  {
    ["Monday", "Tuesday", "Wednesday", "Thursday", "Friday", "Saturday", "Sunday"][w]
  }

  /** The day after `d`. */
  function NextDay(d: CivilDate): (r: CivilDate)
    ensures DayNumber(r) == DayNumber(d) + 1
  {
    if d.day < DaysInMonth(d.year, d.month) then
      Date(d.year, d.month, d.day + 1)
    else if d.month < 12 then
      DaysBeforeMonthStep(d.year, d.month);
      Date(d.year, d.month + 1, 1)
    else
      DaysBeforeYearStep(d.year);
      Date(d.year + 1, 1, 1)
  }

  /** The day before `d`. */
  function PrevDay(d: CivilDate): (r: CivilDate)
    ensures DayNumber(r) == DayNumber(d) - 1
  {
    if d.day > 1 then
      Date(d.year, d.month, d.day - 1)
    else if d.month > 1 then
      DaysBeforeMonthStep(d.year, d.month - 1);
      Date(d.year, d.month - 1, DaysInMonth(d.year, d.month - 1))
    else
      DaysBeforeYearStep(d.year - 1);
      DaysBeforeMonthStep(d.year - 1, 12);
      Date(d.year - 1, 12, 31)
  }

  /** `d + n` days. */
  function AddDays(d: CivilDate, n: int): (r: CivilDate)
    ensures DayNumber(r) == DayNumber(d) + n
    decreases if n >= 0 then n else -n
  {
    if n == 0 then d
    else if n > 0 then AddDays(NextDay(d), n - 1)
    else AddDays(PrevDay(d), n + 1)
  }

  /** A date with a whole hour of the day, as a pandas `Timestamp` with hour resolution. */
  datatype DateTime = DateTime(date: CivilDate, hour: int)

  /** Hours since 0001-01-01 00:00. */
  function Instant(t: DateTime): int {
    DayNumber(t.date) * 24 + t.hour
  }

  /** `date + pd.to_timedelta(h, unit='h')`: the hour of day is normalised, overflow carries into the date. */
  function AddHours(d: CivilDate, h: int): (r: DateTime)
    ensures 0 <= r.hour < 24
    ensures Instant(r) == DayNumber(d) * 24 + h
  {
    DateTime(AddDays(d, h / 24), h % 24)
  }

  /** Chronological order on valid dates. */
  predicate Before(a: Date, b: Date) {
    a.year < b.year || (a.year == b.year && (a.month < b.month || (a.month == b.month && a.day < b.day)))
  }

  /** An integer key that orders dates chronologically (`yyyymmdd`). */
  function DateKey(d: CivilDate): int {
    d.year * 10000 + d.month * 100 + d.day
  }

  predicate IsDateKey(k: int) {
    ValidDate(Date(k / 10000, k % 10000 / 100, k % 100))
  }

  function DateOfKey(k: int): (d: CivilDate)
    requires IsDateKey(k)
  {
    Date(k / 10000, k % 10000 / 100, k % 100)
  }

  /** The key is a lossless, order-preserving encoding of the date. */
  lemma {:induction false} DateKeyRoundTrip(d: CivilDate)
    ensures IsDateKey(DateKey(d)) && DateOfKey(DateKey(d)) == d
  {
    var k := DateKey(d);
    assert k / 10000 == d.year && k % 10000 == d.month * 100 + d.day;
  }

  lemma {:induction false} KeyOfDateOfKey(k: int)
    requires IsDateKey(k)
    ensures DateKey(DateOfKey(k)) == k
  {
    SplitKey(k);
  }

  lemma {:induction false} SplitKey(k: int)
    ensures k / 10000 * 10000 + k % 10000 / 100 * 100 + k % 100 == k
  {
    var q, r := k / 10000, k % 10000;
    assert k == q * 10000 + r && 0 <= r < 10000;
    var s, t := r / 100, r % 100;
    assert r == s * 100 + t && 0 <= t < 100;
    assert k == (q * 100 + s) * 100 + t;
    assert k % 100 == t;
  }

  lemma {:induction false} DateKeyOrder(a: CivilDate, b: CivilDate)
    ensures Before(a, b) <==> DateKey(a) < DateKey(b)
    ensures a == b <==> DateKey(a) == DateKey(b)
  {
    DateKeyRoundTrip(a);
    DateKeyRoundTrip(b);
  }

  /** Weekday of 1 January of year `y`. */
  function NewYearWeekday(y: int): int {
    DaysBeforeYear(y) % 7
  }

  /** ISO years have 53 weeks when they start on a Thursday, or on a Wednesday in a leap year. */
  function WeeksInYear(y: int): int {
    WeekCount(NewYearWeekday(y), IsLeapYear(y))
  }

  /** `%V`: ISO 8601 week number, computed from the ordinal date and the weekday. */
  function IsoWeek(d: CivilDate): (w: int)
    ensures 1 <= w <= 53
  {
    var w := (DayOfYear(d) - (Weekday(d) + 1) + 10) / 7;
    if w < 1 then WeeksInYear(d.year - 1)
    else if w > WeeksInYear(d.year) then 1
    else w
  }

  /** Day number of the Thursday of the Monday-to-Sunday week holding `d`. */
  function WeekThursday(d: CivilDate): int {
    DayNumber(d) - Weekday(d) + 3
  }

  /** `%G`: the ISO week-numbering year, the calendar year holding the week's Thursday. */
  function IsoWeekYear(d: CivilDate): int {
    var t := WeekThursday(d);
    if t < DaysBeforeYear(d.year) then d.year - 1
    else if t >= DaysBeforeYear(d.year + 1) then d.year + 1
    else d.year
  }

  /** The ISO week number by its definition: week 1 holds the year's first Thursday. */
  function IsoWeekByThursday(d: CivilDate): int {
    (WeekThursday(d) - DaysBeforeYear(IsoWeekYear(d))) / 7 + 1
  }

  /** Weeks of an ISO year from the weekday `j` of its 1 January and its length. */
  function WeekCount(j: int, leap: bool): int {
    if j == 3 || (j == 2 && leap) then 53 else 52
  }

  /** A Thursday `u` days after 1 January of a year of length `len`, 3 days or less before the next one. */
  lemma {:induction false} LastWeekOfPreviousYear(b: int, len: int, leap: bool, u: int)
    requires len == (if leap then 366 else 365)
    requires len - 3 <= u < len
    requires (b + u) % 7 == 3
    ensures u / 7 + 1 == WeekCount(b % 7, leap)
  {
    assert (b % 7 + u % 7) % 7 == 3;
  }

  /** A Thursday `t` days into a year of length `len`, and the week it opens or closes. */
  lemma {:induction false} WeekWithinYear(b: int, len: int, leap: bool, t: int)
    requires len == (if leap then 366 else 365)
    requires 0 <= t < len
    requires (b + t) % 7 == 3
    ensures t / 7 + 1 <= WeekCount(b % 7, leap)
  {
    assert (b % 7 + t % 7) % 7 == 3;
  }

  /** A Thursday at most 2 days past the end of a year: that year's formula overshoots. */
  lemma {:induction false} WeekAfterYear(b: int, len: int, leap: bool, t: int)
    requires len == (if leap then 366 else 365)
    requires len <= t <= len + 2
    requires (b + t) % 7 == 3
    ensures t / 7 + 1 > WeekCount(b % 7, leap)
  {
    assert (b % 7 + t % 7) % 7 == 3;
  }

  lemma {:induction false} WeekThursdayOffset(d: CivilDate)
    ensures WeekThursday(d) == DaysBeforeYear(d.year) + (DayOfYear(d) - Weekday(d) + 2)
    ensures WeekThursday(d) % 7 == 3
  {
    var n := DayNumber(d);
    assert Weekday(d) == n % 7;
    ThursdayMod7(n);
  }

  lemma {:induction false} ThursdayMod7(n: int)
    ensures (n - n % 7 + 3) % 7 == 3
  {
    var q := n / 7;
    assert n - n % 7 + 3 == 7 * q + 3;
  }

  /** The ordinal-date formula for `%V` agrees with the definition of the ISO week. */
  lemma {:induction false} IsoWeekMatchesDefinition(d: CivilDate)
    ensures DaysBeforeYear(IsoWeekYear(d)) <= WeekThursday(d) < DaysBeforeYear(IsoWeekYear(d) + 1)
    ensures IsoWeek(d) == IsoWeekByThursday(d)
  {
    var t := DayOfYear(d) - Weekday(d) + 2;
    if t < 0 {
      IsoWeekOfPreviousYear(d);
    } else if t >= DaysInYear(d.year) {
      IsoWeekOfNextYear(d);
    } else {
      IsoWeekOfSameYear(d);
    }
  }

  /** A week whose Thursday falls in the previous year is that year's last week. */
  lemma {:induction false} IsoWeekOfPreviousYear(d: CivilDate)
    requires DayOfYear(d) - Weekday(d) + 2 < 0
    ensures IsoWeekYear(d) == d.year - 1
    ensures DaysBeforeYear(IsoWeekYear(d)) <= WeekThursday(d) < DaysBeforeYear(IsoWeekYear(d) + 1)
    ensures IsoWeek(d) == IsoWeekByThursday(d) == WeeksInYear(d.year - 1)
  {
    var y := d.year;
    var t := DayOfYear(d) - Weekday(d) + 2;
    WeekThursdayOffset(d);
    DaysBeforeYearStep(y - 1);
    var w := (DayOfYear(d) - (Weekday(d) + 1) + 10) / 7;
    assert w == t / 7 + 1 < 1;
    var b0 := DaysBeforeYear(y - 1);
    var u := DaysInYear(y - 1) + t;
    assert b0 + u == WeekThursday(d);
    assert (b0 + u) % 7 == 3;
    assert DaysInYear(y - 1) - 3 <= u < DaysInYear(y - 1);
    LastWeekOfPreviousYear(b0, DaysInYear(y - 1), IsLeapYear(y - 1), u);
  }

  /** A week whose Thursday falls in the next year is that year's first week. */
  lemma {:induction false} IsoWeekOfNextYear(d: CivilDate)
    requires DayOfYear(d) - Weekday(d) + 2 >= DaysInYear(d.year)
    ensures IsoWeekYear(d) == d.year + 1
    ensures DaysBeforeYear(IsoWeekYear(d)) <= WeekThursday(d) < DaysBeforeYear(IsoWeekYear(d) + 1)
    ensures IsoWeek(d) == IsoWeekByThursday(d) == 1
  {
    var y := d.year;
    var b := DaysBeforeYear(y);
    var t := DayOfYear(d) - Weekday(d) + 2;
    WeekThursdayOffset(d);
    DaysBeforeYearStep(y);
    DaysBeforeYearStep(y + 1);
    var w := (DayOfYear(d) - (Weekday(d) + 1) + 10) / 7;
    assert w == t / 7 + 1;
    WeekAfterYear(b, DaysInYear(y), IsLeapYear(y), t);
    assert WeekThursday(d) - DaysBeforeYear(y + 1) == t - DaysInYear(y);
  }

  /** A week whose Thursday falls in the date's own year: the formula needs no correction. */
  lemma {:induction false} IsoWeekOfSameYear(d: CivilDate)
    requires 0 <= DayOfYear(d) - Weekday(d) + 2 < DaysInYear(d.year)
    ensures IsoWeekYear(d) == d.year
    ensures DaysBeforeYear(IsoWeekYear(d)) <= WeekThursday(d) < DaysBeforeYear(IsoWeekYear(d) + 1)
    ensures IsoWeek(d) == IsoWeekByThursday(d)
  {
    var y := d.year;
    var b := DaysBeforeYear(y);
    var t := DayOfYear(d) - Weekday(d) + 2;
    WeekThursdayOffset(d);
    DaysBeforeYearStep(y);
    var w := (DayOfYear(d) - (Weekday(d) + 1) + 10) / 7;
    assert w == t / 7 + 1;
    WeekWithinYear(b, DaysInYear(y), IsLeapYear(y), t);
  }

  /** Consecutive days have consecutive weekdays. */
  lemma {:induction false} NextDayWeekday(d: CivilDate)
    ensures Weekday(NextDay(d)) == (Weekday(d) + 1) % 7
  {
    var n := DayNumber(d);
    assert DayNumber(NextDay(d)) == n + 1;
    SuccMod7(n);
  }

  lemma {:induction false} SuccMod7(n: int)
    ensures (n + 1) % 7 == (n % 7 + 1) % 7
  {
    var q := n / 7;
    assert n == 7 * q + n % 7;
    if n % 7 == 6 {
      assert n + 1 == 7 * (q + 1);
    } else {
      assert n + 1 == 7 * q + (n % 7 + 1);
    }
  }
}
