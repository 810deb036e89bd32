/** Timestamps: instants in UTC, the canonical layout the printer emits, and the readers the parser is given. */
module Timestamps {
  import opened Wrappers

  /** A point in time as its UTC calendar fields, to the nanosecond. */
  datatype Instant = Instant(year: int, month: int, day: int, hour: int, minute: int, second: int, nano: int)

  predicate LeapYear(y: int) {
    y % 4 == 0 && (y % 100 != 0 || y % 400 == 0)
  }

  function DaysIn(year: int, month: int): int {
    if month == 2 then (if LeapYear(year) then 29 else 28)
    else if month in {4, 6, 9, 11} then 30
    else 31
  }

  /** A calendar date of any year, with a time of day: what every time.Time holds. */
  predicate OnCalendar(t: Instant) {
    && 1 <= t.month <= 12 && 1 <= t.day <= DaysIn(t.year, t.month)
    && 0 <= t.hour < 24 && 0 <= t.minute < 60 && 0 <= t.second < 60 && 0 <= t.nano < 1_000_000_000
  }

  /** A calendar date of the years 0 to 9999, the years that four digits can print. */
  predicate Valid(t: Instant) {
    0 <= t.year <= 9999 && OnCalendar(t)
  }

  predicate WholeMillis(t: Instant) {
    t.nano % 1_000_000 == 0
  }

  function Truncate(t: Instant): Instant {
    t.(nano := t.nano - t.nano % 1_000_000)
  }

  /** time.Time.Before */
  predicate Before(a: Instant, b: Instant) {
    if a.year != b.year then a.year < b.year
    else if a.month != b.month then a.month < b.month
    else if a.day != b.day then a.day < b.day
    else if a.hour != b.hour then a.hour < b.hour
    else if a.minute != b.minute then a.minute < b.minute
    else if a.second != b.second then a.second < b.second
    else a.nano < b.nano
  }

  // ----- The canonical layout 2006-01-02T15:04:05.000Z -----

  const LAYOUT_LEN := 24

  function Digit(n: int): char
    requires 0 <= n < 10
  {
    (n + 48) as char
  }

  function Two(n: int): (s: string)
    requires 0 <= n < 100
    ensures |s| == 2
  {
    [Digit(n / 10), Digit(n % 10)]
  }

  function Three(n: int): (s: string)
    requires 0 <= n < 1000
    ensures |s| == 3
  {
    [Digit(n / 100), Digit(n / 10 % 10), Digit(n % 10)]
  }

  function Four(n: int): (s: string)
    requires 0 <= n < 10000
    ensures |s| == 4
  {
    Two(n / 100) + Two(n % 100)
  }

  function Decimal(n: nat): string {
    if n < 10 then [Digit(n)] else Decimal(n / 10) + [Digit(n % 10)]
  }

  /** A year in at least four digits, behind its sign if it is negative. */
  function Year(y: int): (s: string)
    ensures 0 <= y <= 9999 ==> s == Four(y)
    decreases y < 0
  {
    if y < 0 then "-" + Year(-y)
    else if y <= 9999 then Four(y)
    else Decimal(y)
  }

  function Date(t: Instant): (s: string)
    requires OnCalendar(t)
    ensures Valid(t) ==> |s| == 10
  {
    Year(t.year) + "-" + Two(t.month) + "-" + Two(t.day)
  }

  function Clock(t: Instant): (s: string)
    requires OnCalendar(t)
    ensures |s| == 8
  {
    Two(t.hour) + ":" + Two(t.minute) + ":" + Two(t.second)
  }

  /** Format in the canonical layout; digits beyond the millisecond are dropped. */
  function Format(t: Instant): (s: string)
    requires OnCalendar(t)
    ensures Valid(t) ==> |s| == LAYOUT_LEN
  {
    Date(t) + "T" + Clock(t) + "." + Three(t.nano / 1_000_000) + "Z"
  }

  predicate IsDigit(c: char) {
    '0' <= c <= '9'
  }

  function ReadTwo(s: string): (r: Option<int>)
    requires |s| == 2
    ensures r.Some? ==> 0 <= r.value < 100
  {
    if IsDigit(s[0]) && IsDigit(s[1]) then Some((s[0] as int - 48) * 10 + (s[1] as int - 48)) else None
  }

  function ReadThree(s: string): (r: Option<int>)
    requires |s| == 3
    ensures r.Some? ==> 0 <= r.value < 1000
  {
    if IsDigit(s[0]) && IsDigit(s[1]) && IsDigit(s[2])
    then Some((s[0] as int - 48) * 100 + (s[1] as int - 48) * 10 + (s[2] as int - 48))
    else None
  }

  function ReadFour(s: string): (r: Option<int>)
    requires |s| == 4
    ensures r.Some? ==> 0 <= r.value < 10000
  {
    var high, low := ReadTwo(s[..2]), ReadTwo(s[2..]);
    if high.Some? && low.Some? then Some(high.value * 100 + low.value) else None
  }

  lemma TwoRead(n: int)
    requires 0 <= n < 100
    ensures ReadTwo(Two(n)) == Some(n)
  {
  }

  lemma ReadTwoWritten(s: string)
    requires |s| == 2 && ReadTwo(s).Some?
    ensures Two(ReadTwo(s).value) == s
  {
  }

  lemma ThreeRead(n: int)
    requires 0 <= n < 1000
    ensures ReadThree(Three(n)) == Some(n)
  {
  }

  lemma ReadThreeWritten(s: string)
    requires |s| == 3 && ReadThree(s).Some?
    ensures Three(ReadThree(s).value) == s
  {
    ThreeOf(s[0] as int - 48, s[1] as int - 48, s[2] as int - 48);
  }

  lemma ThreeOf(a: int, b: int, c: int)
    requires 0 <= a < 10 && 0 <= b < 10 && 0 <= c < 10
    ensures var n := a * 100 + b * 10 + c; n / 100 == a && n / 10 % 10 == b && n % 10 == c
  {
    var n, t := a * 100 + b * 10 + c, a * 10 + b;
    assert n == t * 10 + c && n / 10 == t && n % 10 == c;
    assert t / 10 == a && t % 10 == b;
    assert n == a * 100 + (b * 10 + c) && 0 <= b * 10 + c < 100;
  }

  lemma FourRead(n: int)
    requires 0 <= n < 10000
    ensures ReadFour(Four(n)) == Some(n)
  {
    TwoRead(n / 100);
    TwoRead(n % 100);
    assert Four(n)[..2] == Two(n / 100) && Four(n)[2..] == Two(n % 100);
  }

  lemma FourOf(high: int, low: int)
    requires 0 <= high < 100 && 0 <= low < 100
    ensures Four(high * 100 + low) == Two(high) + Two(low)
  {
    assert (high * 100 + low) / 100 == high && (high * 100 + low) % 100 == low;
  }

  lemma ReadFourWritten(s: string)
    requires |s| == 4 && ReadFour(s).Some?
    ensures Four(ReadFour(s).value) == s
  {
    var high, low := ReadTwo(s[..2]).value, ReadTwo(s[2..]).value;
    ReadTwoWritten(s[..2]);
    ReadTwoWritten(s[2..]);
    FourOf(high, low);
    assert s == s[..2] + s[2..];
  }

  /** Reads exactly the canonical layout. */
  function ReadCanonical(s: string): (r: Option<Instant>)
    ensures r.Some? ==> Valid(r.value) && WholeMillis(r.value)
  {
    if |s| != LAYOUT_LEN then None
    else if s[4] != '-' || s[7] != '-' || s[10] != 'T' || s[13] != ':' || s[16] != ':' || s[19] != '.' || s[23] != 'Z' then None
    else
      var year, month, day := ReadFour(s[0..4]), ReadTwo(s[5..7]), ReadTwo(s[8..10]);
      var hour, minute, second, millis := ReadTwo(s[11..13]), ReadTwo(s[14..16]), ReadTwo(s[17..19]), ReadThree(s[20..23]);
      if year.None? || month.None? || day.None? || hour.None? || minute.None? || second.None? || millis.None? then None
      else
        var t := Instant(year.value, month.value, day.value, hour.value, minute.value, second.value, millis.value * 1_000_000);
        if Valid(t) then Some(t) else None
  }

  /** Where each part of the canonical layout sits. */
  lemma FormatParts(t: Instant)
    requires Valid(t)
    ensures var s := Format(t);
      && s[4] == '-' && s[7] == '-' && s[10] == 'T' && s[13] == ':' && s[16] == ':' && s[19] == '.' && s[23] == 'Z'
      && s[0..4] == Four(t.year) && s[5..7] == Two(t.month) && s[8..10] == Two(t.day)
      && s[11..13] == Two(t.hour) && s[14..16] == Two(t.minute) && s[17..19] == Two(t.second)
      && s[20..23] == Three(t.nano / 1_000_000)
  {
    var s, d, c := Format(t), Date(t), Clock(t);
    assert s[..10] == d && s[11..19] == c;
    assert d[0..4] == Four(t.year) && d[5..7] == Two(t.month) && d[8..10] == Two(t.day);
    assert c[0..2] == Two(t.hour) && c[3..5] == Two(t.minute) && c[6..8] == Two(t.second);
    assert s[0..4] == s[..10][0..4] && s[5..7] == s[..10][5..7] && s[8..10] == s[..10][8..10];
    assert s[11..13] == s[11..19][0..2] && s[14..16] == s[11..19][3..5] && s[17..19] == s[11..19][6..8];
    assert s[4] == s[..10][4] && s[7] == s[..10][7] && s[13] == s[11..19][2] && s[16] == s[11..19][5];
  }

  lemma ReadFormat(t: Instant)
    requires Valid(t)
    ensures ReadCanonical(Format(t)) == Some(Truncate(t))
  {
    FormatParts(t);
    FourRead(t.year);
    TwoRead(t.month);
    TwoRead(t.day);
    TwoRead(t.hour);
    TwoRead(t.minute);
    TwoRead(t.second);
    ThreeRead(t.nano / 1_000_000);
  }

  lemma FormatRead(s: string)
    requires ReadCanonical(s).Some?
    ensures Format(ReadCanonical(s).value) == s
  {
    var t := ReadCanonical(s).value;
    ReadFourWritten(s[0..4]);
    ReadTwoWritten(s[5..7]);
    ReadTwoWritten(s[8..10]);
    ReadTwoWritten(s[11..13]);
    ReadTwoWritten(s[14..16]);
    ReadTwoWritten(s[17..19]);
    ReadThreeWritten(s[20..23]);
    FormatParts(t);
    SamePieces(Format(t), s);
  }

  lemma SamePieces(a: string, b: string)
    requires |a| == |b| == LAYOUT_LEN
    requires a[0..4] == b[0..4] && a[4] == b[4] && a[5..7] == b[5..7] && a[7] == b[7] && a[8..10] == b[8..10]
    requires a[10] == b[10] && a[11..13] == b[11..13] && a[13] == b[13] && a[14..16] == b[14..16]
    requires a[16] == b[16] && a[17..19] == b[17..19] && a[19] == b[19] && a[20..23] == b[20..23] && a[23] == b[23]
    ensures a == b
  {
    forall i | 0 <= i < LAYOUT_LEN ensures a[i] == b[i] {
      if i < 4 { assert a[0..4][i] == b[0..4][i]; }
      else if 5 <= i < 7 { assert a[5..7][i - 5] == b[5..7][i - 5]; }
      else if 8 <= i < 10 { assert a[8..10][i - 8] == b[8..10][i - 8]; }
      else if 11 <= i < 13 { assert a[11..13][i - 11] == b[11..13][i - 11]; }
      else if 14 <= i < 16 { assert a[14..16][i - 14] == b[14..16][i - 14]; }
      else if 17 <= i < 19 { assert a[17..19][i - 17] == b[17..19][i - 17]; }
      else if 20 <= i < 23 { assert a[20..23][i - 20] == b[20..23][i - 20]; }
    }
  }

  /** The number that a string of digits denotes. */
  function Number(s: string): int {
    if s == "" then 0 else Number(s[..|s| - 1]) * 10 + (s[|s| - 1] as int - 48)
  }

  lemma NumberSnoc(s: string, d: int)
    requires 0 <= d < 10
    ensures Number(s + [Digit(d)]) == Number(s) * 10 + d
  {
    assert (s + [Digit(d)])[..|s|] == s;
  }

  lemma {:induction false} DecimalNumber(n: nat)
    ensures Number(Decimal(n)) == n
  {
    if n >= 10 {
      DecimalNumber(n / 10);
      NumberSnoc(Decimal(n / 10), n % 10);
    } else {
      NumberSnoc("", n);
      assert "" + [Digit(n)] == [Digit(n)];
    }
  }

  lemma TwoNumber(s: string, n: int)
    requires 0 <= n < 100
    ensures Number(s + Two(n)) == Number(s) * 100 + n
  {
    NumberSnoc(s, n / 10);
    NumberSnoc(s + [Digit(n / 10)], n % 10);
    assert s + Two(n) == s + [Digit(n / 10)] + [Digit(n % 10)];
  }

  /** A year is written in at least four digits, of its number, behind "-" if it is negative. */
  lemma YearWritten(y: int)
    ensures var digits := if y < 0 then Year(y)[1..] else Year(y);
      Number(digits) == (if y < 0 then -y else y) && (y < 0 ==> Year(y)[0] == '-') && |digits| >= 4
  {
    var n := if y < 0 then -y else y;
    if n > 9999 {
      DecimalNumber(n);
      DecimalLength(n);
    } else {
      TwoNumber("", n / 100);
      TwoNumber("" + Two(n / 100), n % 100);
      assert "" + Two(n / 100) == Two(n / 100);
    }
  }

  lemma {:induction false} DecimalDigits(n: nat)
    ensures forall i :: 0 <= i < |Decimal(n)| ==> IsDigit(Decimal(n)[i])
  {
    if n >= 10 { DecimalDigits(n / 10); }
  }

  lemma YearPlain(y: int)
    ensures '\n' !in Year(y) && '\r' !in Year(y)
  {
    if y > 9999 {
      DecimalDigits(y);
    } else if y < -9999 {
      DecimalDigits(-y);
    }
  }

  lemma DatePlain(t: Instant)
    requires OnCalendar(t)
    ensures '\n' !in Date(t) && '\r' !in Date(t)
  {
    YearPlain(t.year);
  }

  lemma ClockPlain(t: Instant)
    requires OnCalendar(t)
    ensures '\n' !in Clock(t) && '\r' !in Clock(t)
  {
  }

  lemma FormatPlain(t: Instant)
    requires OnCalendar(t)
    ensures '\n' !in Format(t) && '\r' !in Format(t)
    ensures Format(t) == Format(Truncate(t))
  {
    DatePlain(t);
    ClockPlain(t);
    assert Date(Truncate(t)) == Date(t) && Clock(Truncate(t)) == Clock(t);
    assert Truncate(t).nano / 1_000_000 == t.nano / 1_000_000;
  }

  lemma DecimalLength(n: nat)
    requires n > 9999
    ensures |Decimal(n)| >= 5
  {
    assert |Decimal(n)| == |Decimal(n / 10)| + 1 && n / 10 > 999;
    assert |Decimal(n / 10)| == |Decimal(n / 10 / 10)| + 1 && n / 10 / 10 > 99;
    assert |Decimal(n / 10 / 10)| == |Decimal(n / 10 / 10 / 10)| + 1 && n / 10 / 10 / 10 > 9;
    assert |Decimal(n / 10 / 10 / 10)| == |Decimal(n / 10 / 10 / 10 / 10)| + 1;
    DecimalNonEmpty(n / 10 / 10 / 10 / 10);
  }

  lemma DecimalNonEmpty(n: nat)
    ensures Decimal(n) != []
  {
  }

  /** In other years the text is longer than the layout. */
  lemma OtherYears(t: Instant)
    requires OnCalendar(t) && !Valid(t)
    ensures |Format(t)| > LAYOUT_LEN
  {
    if t.year > 9999 {
      DecimalLength(t.year);
    } else if t.year < -9999 {
      DecimalLength(-t.year);
    }
    assert |Year(t.year)| >= 5;
  }

  // ----- Readers -----

  /** What time.Parse accepts for Issued At and for the trailer fields, layouts tried in order; left open. */
  datatype TimeReader = TimeReader(issuedAt: string -> Option<Instant>, trailer: string -> Option<Instant>)

  /** The reader understands what the printer writes. */
  ghost predicate ReadsCanonical(r: TimeReader) {
    forall t :: Valid(t) && WholeMillis(t) ==> r.issuedAt(Format(t)) == Some(t) && r.trailer(Format(t)) == Some(t)
  }

  /** The reader refuses what the printer writes for other years, as time.Parse refuses a year that is not four digits. */
  ghost predicate RefusesOthers(r: TimeReader) {
    forall t :: OnCalendar(t) && !Valid(t) ==> r.issuedAt(Format(t)) == None && r.trailer(Format(t)) == None
  }

  function CanonicalReader(): TimeReader {
    TimeReader(s => ReadCanonical(s), s => ReadCanonical(s))
  }

  lemma CanonicalReaderQualifies()
    ensures ReadsCanonical(CanonicalReader()) && RefusesOthers(CanonicalReader())
  {
    forall t | OnCalendar(t) && !Valid(t) ensures ReadCanonical(Format(t)) == None {
      OtherYears(t);
    }
    forall t | Valid(t) && WholeMillis(t) ensures ReadCanonical(Format(t)) == Some(t) {
      ReadFormat(t);
    }
  }
}
