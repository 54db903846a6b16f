/** Dates, instants and the whole-day difference between two instants, as
    Python's `datetime` computes them for the checker.

    An instant is a number of microseconds since 1970-01-01T00:00:00 UTC
    (microseconds are the resolution of `datetime` and `timedelta`). A
    wall-clock reading is a calendar date plus the microseconds elapsed since
    midnight; its instant depends on the UTC offset it is read in. */
module Calendar {
  import opened Text

  const MicrosPerDay: int := 86_400_000_000

  /** `datetime.MINYEAR` and `datetime.MAXYEAR`. */
  const MinYear: int := 1
  const MaxYear: int := 9999

  datatype Date = Date(year: int, month: int, day: int)

  predicate IsLeapYear(y: int)
  {
    y % 4 == 0 && (y % 100 != 0 || y % 400 == 0)
  }

  function DaysInMonth(y: int, m: int): (n: int)
    requires 1 <= m <= 12
    ensures 28 <= n <= 31
    ensures n == 29 <==> m == 2 && IsLeapYear(y)
  {
    if m == 2 then (if IsLeapYear(y) then 29 else 28)
    else if m == 4 || m == 6 || m == 9 || m == 11 then 30
    else 31
  }

  /** A day of the proleptic Gregorian calendar, in any year. */
  predicate IsCalendarDate(d: Date)
  {
    1 <= d.month <= 12 && 1 <= d.day <= DaysInMonth(d.year, d.month)
  }

  /** A date Python's `date` type can hold. */
  predicate ValidDate(d: Date)
  {
    IsCalendarDate(d) && MinYear <= d.year <= MaxYear
  }

  /** A date of Python's `date` type. */
  type ValidDay = d: Date | ValidDate(d) witness Date(1970, 1, 1)

  /** The calendar day after `d`. */
  function NextDate(d: Date): (n: Date)
    requires IsCalendarDate(d)
    ensures IsCalendarDate(n)
  {
    if d.day < DaysInMonth(d.year, d.month) then Date(d.year, d.month, d.day + 1)
    else if d.month < 12 then Date(d.year, d.month + 1, 1)
    else Date(d.year + 1, 1, 1)
  }

  /** Day number, relative to 1970-01-01, of March 1st of year `y`
      (a year here runs from March to the end of the next February, so
      that the leap day is its last day). */
  function MarchFirst(y: int): int
  {
    var era, yoe := y / 400, y % 400;
    era * 146097 + yoe * 365 + yoe / 4 - yoe / 100 + 60 - 719528
  }

  /** Days from March 1st to the first day of the `mp`-th month after it. */
  function MonthStart(mp: int): int
    requires 0 <= mp <= 11
  {
    (153 * mp + 2) / 5
  }

  /** Number of days from 1970-01-01 to `d`: the proleptic Gregorian day
      count Python's `date.toordinal()` uses, shifted to the epoch. */
  function DaysFromCivil(d: Date): int
    requires IsCalendarDate(d)
  {
    var y := if d.month <= 2 then d.year - 1 else d.year;
    var mp := if d.month > 2 then d.month - 3 else d.month + 9;
    MarchFirst(y) + MonthStart(mp) + d.day - 1
  }

  /** One March-based year is 366 days long when the February that ends it
      has a leap day, and 365 days otherwise. */
  lemma YearLength(y: int)
    ensures MarchFirst(y + 1) - MarchFirst(y) == if IsLeapYear(y + 1) then 366 else 365
  {
    var r := y % 400;
    if r < 399 {
      assert (y + 1) / 400 == y / 400 && (y + 1) % 400 == r + 1;
      LeapByRemainder(y + 1, r + 1);
      assert (r + 1) / 4 - r / 4 == if (r + 1) % 4 == 0 then 1 else 0;
      assert (r + 1) / 100 - r / 100 == if (r + 1) % 100 == 0 then 1 else 0;
    } else {
      assert (y + 1) / 400 == y / 400 + 1 && (y + 1) % 400 == 0;
      LeapByRemainder(y + 1, 0);
    }
  }

  /** Whether a year is a leap year depends only on its place in the
      400-year cycle. */
  lemma LeapByRemainder(x: int, r: int)
    requires x % 400 == r
    ensures IsLeapYear(x) <==> IsLeapYear(r)
  {
    var q := x / 400;
    assert x == q * 400 + r;
    RemainderOf(q * 100 + r / 4, r % 4);
    RemainderOf(q * 4 + r / 100, r % 100);
  }

  /** Adding whole multiples of 4 and of 100 does not change the
      remainders by 4 and by 100. */
  lemma RemainderOf(a: int, b: int)
    requires 0 <= b
    ensures b < 4 ==> (a * 4 + b) % 4 == b
    ensures b < 100 ==> (a * 100 + b) % 100 == b
  {
  }

  /** Consecutive calendar days have consecutive day numbers. */
  lemma NextDateIsNextDay(d: Date)
    requires IsCalendarDate(d)
    ensures DaysFromCivil(NextDate(d)) == DaysFromCivil(d) + 1
  {
    MonthStarts();
    if d.day == DaysInMonth(d.year, d.month) && d.month == 2 {
      YearLength(d.year - 1);
    }
  }

  /** The first day of each month, counted from March 1st. */
  lemma MonthStarts()
    ensures MonthStart(0) == 0 && MonthStart(1) == 31 && MonthStart(2) == 61
    ensures MonthStart(3) == 92 && MonthStart(4) == 122 && MonthStart(5) == 153
    ensures MonthStart(6) == 184 && MonthStart(7) == 214 && MonthStart(8) == 245
    ensures MonthStart(9) == 275 && MonthStart(10) == 306 && MonthStart(11) == 337
  {
  }

  /** The epoch is day zero. */
  lemma EpochIsDayZero()
    ensures DaysFromCivil(Date(1970, 1, 1)) == 0
  {
  }

  /** A wall-clock reading: a date and the microseconds since its midnight. */
  datatype LocalDateTime = LocalDateTime(date: Date, micros: int)

  /** A reading Python's `datetime` type can hold. */
  type DateTime = t: LocalDateTime | ValidDate(t.date) && 0 <= t.micros < MicrosPerDay
    witness LocalDateTime(Date(1970, 1, 1), 0)

  /** The instant of a wall-clock reading taken at `utcOffset` microseconds
      east of UTC. */
  function InstantAt(t: DateTime, utcOffset: int): (i: int)
    ensures DaysLeft(i, DaysFromCivil(t.date) * MicrosPerDay - utcOffset) == 0
    ensures i - (DaysFromCivil(t.date) * MicrosPerDay - utcOffset) == t.micros
  {
    DaysFromCivil(t.date) * MicrosPerDay + t.micros - utcOffset
  }

  /** `(expiry - today).days`: the number of whole days in the difference
      of two instants, rounded down (a `timedelta` keeps its days field
      floored and its seconds and microseconds non-negative). */
  function DaysLeft(expiry: int, today: int): (d: int)
    ensures d * MicrosPerDay <= expiry - today < (d + 1) * MicrosPerDay
  {
    (expiry - today) / MicrosPerDay
  }

  /** Only one day count lies within those bounds, so `DaysLeft` is the
      floor of the difference and nothing else. */
  lemma DaysLeftUnique(expiry: int, today: int, d: int)
    requires d * MicrosPerDay <= expiry - today < (d + 1) * MicrosPerDay
    ensures d == DaysLeft(expiry, today)
  {
  }

  /** Between two readings at the same UTC offset, the days left are the
      difference of their day numbers, less one when the expiry's time of
      day is earlier than today's: the time of day counts, not just the
      date. */
  lemma DaysLeftBetweenReadings(expiry: DateTime, today: DateTime, utcOffset: int)
    ensures DaysLeft(InstantAt(expiry, utcOffset), InstantAt(today, utcOffset))
         == DaysFromCivil(expiry.date) - DaysFromCivil(today.date) - (if expiry.micros < today.micros then 1 else 0)
  {
    var n := DaysFromCivil(expiry.date) - DaysFromCivil(today.date);
    var d := n - (if expiry.micros < today.micros then 1 else 0);
    var diff := InstantAt(expiry, utcOffset) - InstantAt(today, utcOffset);
    assert diff == n * MicrosPerDay + (expiry.micros - today.micros);
    assert d * MicrosPerDay <= diff < (d + 1) * MicrosPerDay;
    DaysLeftUnique(InstantAt(expiry, utcOffset), InstantAt(today, utcOffset), d);
  }

  /** An instant already past is a negative number of days away. */
  lemma DaysLeftPast(expiry: int, today: int)
    ensures expiry < today <==> DaysLeft(expiry, today) < 0
  {
  }

  /** Python's `str(date)`: `YYYY-MM-DD`. */
  function IsoDate(d: Date): (r: string)
    requires ValidDate(d)
    ensures |r| == 10 && r[4] == '-' && r[7] == '-'
    ensures IsDigits(r[..4]) && DigitsValue(r[..4]) == d.year
    ensures IsDigits(r[5..7]) && DigitsValue(r[5..7]) == d.month
    ensures IsDigits(r[8..]) && DigitsValue(r[8..]) == d.day
  {
    NatToStringShort(d.year, 4);
    NatToStringShort(d.month, 2);
    NatToStringShort(d.day, 2);
    var y, m, dd := ZeroPadded(d.year, 4), ZeroPadded(d.month, 2), ZeroPadded(d.day, 2);
    var r := y + "-" + m + "-" + dd;
    assert r[..4] == y && r[5..7] == m && r[8..] == dd;
    r
  }
}
