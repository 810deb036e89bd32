/** Instants as nanosecond counts: the calendar leaves none out, and time.Time.Before compares them. */
module Calendar {
  import opened Timestamps

  // ----- Counting -----

  /** Days from 1 January of year 0 to 1 January of year y, with a leap day every 4 years, except every 100, except every 400. */
  function YearStart(y: int): int {
    365 * y + (y + 3) / 4 - (y + 99) / 100 + (y + 399) / 400
  }

  /** Days of year y before its month m; after February the length of the year tells whether there was a leap day. */
  function MonthStart(y: int, m: int): int
    requires 1 <= m <= 12
  {
    var common :=
      match m
      case 1 => 0 case 2 => 31 case 3 => 59 case 4 => 90 case 5 => 120 case 6 => 151
      case 7 => 181 case 8 => 212 case 9 => 243 case 10 => 273 case 11 => 304 case _ => 334;
    if m > 2 then common + YearStart(y + 1) - YearStart(y) - 365 else common
  }

  function DayNumber(t: Instant): int
    requires 1 <= t.month <= 12
  {
    YearStart(t.year) + MonthStart(t.year, t.month) + t.day - 1
  }

  function ClockNanos(t: Instant): int {
    ((t.hour * 60 + t.minute) * 60 + t.second) * 1_000_000_000 + t.nano
  }

  const DAY_NANOS := 86_400_000_000_000

  /** Nanoseconds since the start of year 0. */
  function Nanos(t: Instant): int
    requires 1 <= t.month <= 12
  {
    DayNumber(t) * DAY_NANOS + ClockNanos(t)
  }

  // ----- Years and months fit together -----

  lemma LeapStep(y: int, n: int)
    requires n > 0
    ensures (y + n) / n - (y + n - 1) / n == if y % n == 0 then 1 else 0
  {
    var q, r := y / n, y % n;
    assert y == q * n + r;
    Quotient(y + n, n, q + 1, r);
    if r == 0 {
      Quotient(y + n - 1, n, q, n - 1);
    } else {
      Quotient(y + n - 1, n, q + 1, r - 1);
    }
  }

  lemma Multiple(d: int, n: int)
    requires n > 0
    ensures d >= 1 ==> d * n >= n
    ensures d <= -1 ==> d * n <= -n
  {
  }

  lemma Quotient(a: int, n: int, q: int, r: int)
    requires n > 0 && 0 <= r < n && a == q * n + r
    ensures a / n == q
  {
    var d := a / n - q;
    assert d * n == r - a % n;
    Multiple(d, n);
  }

  lemma LeapYears(y: int)
    ensures y % 400 == 0 ==> y % 100 == 0
    ensures y % 100 == 0 ==> y % 4 == 0
  {
  }

  lemma YearLength(y: int)
    ensures YearStart(y + 1) - YearStart(y) == if LeapYear(y) then 366 else 365
  {
    LeapStep(y, 4);
    LeapStep(y, 100);
    LeapStep(y, 400);
    LeapYears(y);
    Leaps(y, (y + 4) / 4 - (y + 3) / 4, (y + 100) / 100 - (y + 99) / 100, (y + 400) / 400 - (y + 399) / 400);
  }

  lemma Leaps(y: int, fourth: int, hundredth: int, fourHundredth: int)
    requires YearStart(y + 1) - YearStart(y) == 365 + fourth - hundredth + fourHundredth
    requires fourth == (if y % 4 == 0 then 1 else 0) && hundredth == (if y % 100 == 0 then 1 else 0)
    requires fourHundredth == (if y % 400 == 0 then 1 else 0)
    requires (y % 400 == 0 ==> y % 100 == 0) && (y % 100 == 0 ==> y % 4 == 0)
    ensures YearStart(y + 1) - YearStart(y) == if LeapYear(y) then 366 else 365
  {
  }

  lemma {:induction false} YearsApart(y: int, z: int)
    requires y < z
    ensures YearStart(y + 1) <= YearStart(z)
    decreases z - y
  {
    if y + 1 < z {
      YearsApart(y, z - 1);
      YearLength(z - 1);
    }
  }

  lemma MonthLength(y: int, m: int)
    requires 1 <= m <= 12
    ensures MonthStart(y, m) + DaysIn(y, m) == if m < 12 then MonthStart(y, m + 1) else YearStart(y + 1) - YearStart(y)
  {
    YearLength(y);
  }

  lemma MonthsApart(y: int, m: int, n: int)
    requires 1 <= m < n <= 12
    ensures MonthStart(y, m) + DaysIn(y, m) <= MonthStart(y, n)
    decreases n - m
  {
    if m + 1 < n {
      MonthsApart(y, m, n - 1);
      MonthLength(y, n - 1);
    } else {
      MonthLength(y, m);
    }
  }

  lemma InsideYear(t: Instant)
    requires OnCalendar(t)
    ensures YearStart(t.year) <= DayNumber(t) < YearStart(t.year + 1)
  {
    YearLength(t.year);
    if t.month < 12 { MonthsApart(t.year, t.month, 12); }
    MonthLength(t.year, 12);
  }

  // ----- Before compares the counts -----

  lemma EarlierDay(a: Instant, b: Instant)
    requires OnCalendar(a) && OnCalendar(b)
    requires a.year < b.year || (a.year == b.year && (a.month < b.month || (a.month == b.month && a.day < b.day)))
    ensures DayNumber(a) < DayNumber(b)
  {
    if a.year < b.year {
      InsideYear(a);
      InsideYear(b);
      YearsApart(a.year, b.year);
    } else if a.month < b.month {
      MonthsApart(a.year, a.month, b.month);
    }
  }

  lemma ClockInDay(t: Instant)
    requires OnCalendar(t)
    ensures 0 <= ClockNanos(t) < DAY_NANOS
  {
  }

  lemma EarlierClock(a: Instant, b: Instant)
    requires OnCalendar(a) && OnCalendar(b)
    requires a.hour < b.hour || (a.hour == b.hour && (a.minute < b.minute || (a.minute == b.minute
             && (a.second < b.second || (a.second == b.second && a.nano < b.nano)))))
    ensures ClockNanos(a) < ClockNanos(b)
  {
  }

  lemma BeforeEarlier(a: Instant, b: Instant)
    requires OnCalendar(a) && OnCalendar(b) && Before(a, b)
    ensures Nanos(a) < Nanos(b)
  {
    ClockInDay(a);
    ClockInDay(b);
    if a.year == b.year && a.month == b.month && a.day == b.day {
      EarlierClock(a, b);
    } else {
      EarlierDay(a, b);
    }
  }

  /** An instant is before another exactly if fewer nanoseconds have passed by then. */
  lemma BeforeIff(a: Instant, b: Instant)
    requires OnCalendar(a) && OnCalendar(b)
    ensures Before(a, b) <==> Nanos(a) < Nanos(b)
    ensures a == b <==> Nanos(a) == Nanos(b)
  {
    if Before(a, b) {
      BeforeEarlier(a, b);
    } else if Before(b, a) {
      BeforeEarlier(b, a);
    }
  }

  // ----- The calendar has every count -----

  lemma NextDay(t: Instant) returns (u: Instant)
    requires OnCalendar(t)
    ensures OnCalendar(u) && DayNumber(u) == DayNumber(t) + 1 && ClockNanos(u) == ClockNanos(t)
  {
    MonthLength(t.year, t.month);
    u := if t.day < DaysIn(t.year, t.month) then t.(day := t.day + 1)
         else if t.month < 12 then t.(month := t.month + 1, day := 1)
         else t.(year := t.year + 1, month := 1, day := 1);
  }

  lemma PreviousDay(t: Instant) returns (u: Instant)
    requires OnCalendar(t)
    ensures OnCalendar(u) && DayNumber(u) == DayNumber(t) - 1 && ClockNanos(u) == ClockNanos(t)
  {
    if t.day > 1 {
      u := t.(day := t.day - 1);
    } else if t.month > 1 {
      u := t.(month := t.month - 1, day := DaysIn(t.year, t.month - 1));
      MonthLength(t.year, t.month - 1);
    } else {
      u := t.(year := t.year - 1, month := 12, day := 31);
      MonthLength(t.year - 1, 12);
    }
  }

  lemma YearZero(y: int)
    requires y == 0
    ensures YearStart(y) == 0
  {
  }

  lemma FirstOn(t: Instant)
    requires t.month == 1 && t.day == 1 && t.hour == 0 && t.minute == 0 && t.second == 0 && t.nano == 0
    ensures OnCalendar(t)
  {
  }

  lemma FirstNumber(t: Instant)
    requires t.month == 1 && t.day == 1
    ensures DayNumber(t) == YearStart(t.year)
  {
  }

  lemma FirstClock(t: Instant)
    requires t.hour == 0 && t.minute == 0 && t.second == 0 && t.nano == 0
    ensures ClockNanos(t) == 0
  {
  }

  lemma FirstDay(t: Instant, y: int)
    requires t.year == y && YearStart(y) == 0
    requires t.month == 1 && t.day == 1 && t.hour == 0 && t.minute == 0 && t.second == 0 && t.nano == 0
    ensures OnCalendar(t) && DayNumber(t) == 0 && ClockNanos(t) == 0
  {
    FirstOn(t);
    FirstNumber(t);
    FirstClock(t);
  }

  lemma {:induction false} DayWith(n: int) returns (t: Instant)
    ensures OnCalendar(t) && DayNumber(t) == n && ClockNanos(t) == 0
    decreases if n < 0 then -n else n
  {
    if n == 0 {
      t := Instant(n, 1, 1, 0, 0, 0, 0);
      YearZero(n);
      FirstDay(t, n);
    } else if n > 0 {
      t := DayWith(n - 1);
      t := NextDay(t);
    } else {
      t := DayWith(n + 1);
      t := PreviousDay(t);
    }
  }

  lemma TimeWith(n: int, t: Instant) returns (u: Instant)
    requires OnCalendar(t) && 0 <= n < DAY_NANOS
    ensures OnCalendar(u) && DayNumber(u) == DayNumber(t) && ClockNanos(u) == n
  {
    var seconds := n / 1_000_000_000;
    var minutes := seconds / 60;
    u := t.(hour := minutes / 60, minute := minutes % 60, second := seconds % 60, nano := n % 1_000_000_000);
  }

  /** Every count is that of a calendar instant. */
  lemma InstantWith(n: int) returns (t: Instant)
    ensures OnCalendar(t) && Nanos(t) == n
  {
    t := DayWith(n / DAY_NANOS);
    t := TimeWith(n % DAY_NANOS, t);
  }
}
