// Timestamps in Go's time.RFC3339Nano layout (RFC 3339, section 5.6). An instant counts nanoseconds from
// 0001-01-01T00:00:00Z, so instant 0 is Go's zero Time.

module Rfc3339 {
  import opened Wrappers
  import opened Decimal

  const NS_PER_SECOND: int := 1_000_000_000
  const NS_PER_DAY: int := 86_400_000_000_000

  /** n seconds in nanoseconds. */
  function Seconds(n: int): int {
    n * 1_000_000_000
  }

  /** n days in nanoseconds. */
  function Days(n: int): int {
    n * 86_400_000_000_000
  }

  /** Days from 0000-01-01 to 0001-01-01: year 0 is a leap year. */
  const DAYS_IN_YEAR_ZERO: int := 366

  /** Days from 0000-01-01 to 10000-01-01. */
  const DAYS_BEFORE_YEAR_10000: int := 3_652_425

  // ---------------------------------------------------------------- the calendar

  datatype Date = Date(year: nat, month: nat, day: nat)

  predicate IsLeap(y: nat) {
    y % 4 == 0 && (y % 100 != 0 || y % 400 == 0)
  }

  function DaysIn(y: nat, m: nat): (n: nat)
    ensures n >= 28
  {
    if m == 2 then (if IsLeap(y) then 29 else 28)
    else if m == 4 || m == 6 || m == 9 || m == 11 then 30
    else 31
  }

  predicate ValidDate(d: Date) {
    1 <= d.month <= 12 && 1 <= d.day <= DaysIn(d.year, d.month)
  }

  function DaysBeforeYear(y: nat): nat {
    365 * y + (y + 3) / 4 - (y + 99) / 100 + (y + 399) / 400
  }

  function DaysBeforeMonth(y: nat, m: nat): nat
    requires 1 <= m <= 12
  {
    [0, 31, 59, 90, 120, 151, 181, 212, 243, 273, 304, 334][m - 1] + if m > 2 && IsLeap(y) then 1 else 0
  }

  /** Days from 0000-01-01 in the proleptic Gregorian calendar. */
  function DayNumber(d: Date): nat
    requires ValidDate(d)
  {
    DaysBeforeYear(d.year) + DaysBeforeMonth(d.year, d.month) + d.day - 1
  }

  function NextDay(d: Date): (e: Date)
    requires ValidDate(d)
    ensures ValidDate(e)
  {
    if d.day < DaysIn(d.year, d.month) then Date(d.year, d.month, d.day + 1)
    else if d.month < 12 then Date(d.year, d.month + 1, 1)
    else Date(d.year + 1, 1, 1)
  }

  lemma Every4(y: nat)
    ensures (y + 4) / 4 == (y + 3) / 4 + if y % 4 == 0 then 1 else 0
  {
  }

  lemma Every100(y: nat)
    ensures (y + 100) / 100 == (y + 99) / 100 + if y % 100 == 0 then 1 else 0
  {
  }

  lemma Every400(y: nat)
    ensures (y + 400) / 400 == (y + 399) / 400 + if y % 400 == 0 then 1 else 0
  {
  }

  lemma CenturyIsFourth(y: nat)
    requires y % 100 == 0
    ensures y % 4 == 0
  {
    Multiples(25 * (y / 100), 0);
  }

  lemma FourCenturiesIsCentury(y: nat)
    requires y % 400 == 0
    ensures y % 100 == 0
  {
    Multiples(0, 4 * (y / 400));
  }

  lemma Multiples(p: nat, q: nat)
    ensures 4 * p % 4 == 0 && 100 * q % 100 == 0
  {
  }

  lemma LeapCount(y: nat)
    ensures (if IsLeap(y) then 1 else 0)
         == (if y % 4 == 0 then 1 else 0) - (if y % 100 == 0 then 1 else 0) + (if y % 400 == 0 then 1 else 0)
  {
    if y % 100 == 0 { CenturyIsFourth(y); }
    if y % 400 == 0 { FourCenturiesIsCentury(y); }
  }

  lemma YearStep(y: nat)
    ensures DaysBeforeYear(y + 1) == DaysBeforeYear(y) + if IsLeap(y) then 366 else 365
  {
    Every4(y);
    Every100(y);
    Every400(y);
    LeapCount(y);
    hide IsLeap;
  }

  /** The calendar counts days one by one. */
  lemma NextDayCounts(d: Date)
    requires ValidDate(d)
    ensures DayNumber(NextDay(d)) == DayNumber(d) + 1
  {
    if d.day == DaysIn(d.year, d.month) && d.month == 12 {
      YearStep(d.year);
    }
  }

  /** The date of a day number: the inverse of DayNumber. */
  function DateOf(n: nat): (d: Date)
    ensures ValidDate(d) && DayNumber(d) == n
  {
    if n == 0 then Date(0, 1, 1) else
      var d := DateOf(n - 1);
      NextDayCounts(d);
      NextDay(d)
  }

  lemma {:induction false} YearsOnlyGrow(y: nat, z: nat)
    requires y <= z
    ensures DaysBeforeYear(y) <= DaysBeforeYear(z)
  {
    if y < z {
      YearsOnlyGrow(y, z - 1);
      YearStep(z - 1);
    }
  }

  lemma FourDigitYear(n: nat)
    requires n < DAYS_BEFORE_YEAR_10000
    ensures DateOf(n).year <= 9999
  {
    if DateOf(n).year >= 10_000 {
      YearsOnlyGrow(10_000, DateOf(n).year);
    }
  }

  /** Instants whose year has four digits, 0000 to 9999. */
  predicate InRange(t: int) {
    0 <= t + DAYS_IN_YEAR_ZERO * NS_PER_DAY < DAYS_BEFORE_YEAR_10000 * NS_PER_DAY
  }

  type Instant = t: int | InRange(t) witness 0

  lemma CancelFactor(q: int, a: int, n: int)
    requires n > 0 && q * n < a * n
    ensures q < a
  {
  }

  lemma QuotientInRange(x: int, a: int, n: int)
    requires n > 0 && 0 <= x < a * n
    ensures 0 <= x / n < a
  {
    CancelFactor(x / n, a, n);
  }

  function DayOf(t: Instant): (n: nat)
    ensures n < DAYS_BEFORE_YEAR_10000
  {
    assert InRange(t);
    QuotientInRange(t + DAYS_IN_YEAR_ZERO * NS_PER_DAY, DAYS_BEFORE_YEAR_10000, NS_PER_DAY);
    (t + DAYS_IN_YEAR_ZERO * NS_PER_DAY) / NS_PER_DAY
  }

  function NanosOfDay(t: Instant): (n: nat)
    ensures n < NS_PER_DAY
    ensures t == Days(DayOf(t) - DAYS_IN_YEAR_ZERO) + n
  {
    (t + DAYS_IN_YEAR_ZERO * NS_PER_DAY) % NS_PER_DAY
  }

  // ---------------------------------------------------------------- printing

  function TrimZeros(s: string): (t: string)
    ensures t <= s
  {
    if s != "" && s[|s| - 1] == '0' then TrimZeros(s[..|s| - 1]) else s
  }

  /** The ".999999999" part of the layout: nothing for a whole second, otherwise trailing zeros dropped. */
  function FormatFraction(ns: nat): string
    requires ns < NS_PER_SECOND
  {
    if ns == 0 then "" else "." + TrimZeros(Pad9(ns))
  }

  function Pad2(n: nat): (s: string)
    requires n < 100
    ensures |s| == 2 && AllDigits(s) && Value(s) == n
  {
    assert Pow10(2) == 100;
    Pad(n, 2)
  }

  function Pad4(n: nat): (s: string)
    requires n < 10_000
    ensures |s| == 4 && AllDigits(s) && Value(s) == n
  {
    assert Pow10(4) == 10 * Pow10(3) == 10_000;
    Pad(n, 4)
  }

  lemma NinePlaces()
    ensures Pow10(9) == NS_PER_SECOND
  {
    assert Pow10(3) == 1_000;
    assert Pow10(6) == 1_000 * Pow10(3);
    assert Pow10(9) == 1_000 * Pow10(6);
  }

  function Pad9(n: nat): (s: string)
    requires n < NS_PER_SECOND
    ensures |s| == 9 && AllDigits(s) && Value(s) == n
  {
    NinePlaces();
    Pad(n, 9)
  }

  function FormatDate(d: Date): string
    requires ValidDate(d) && d.year <= 9999
  {
    Pad4(d.year) + "-" + Pad2(d.month) + "-" + Pad2(d.day)
  }

  /** A time of day to the nanosecond. */
  datatype Clock = Clock(hour: nat, minute: nat, second: nat, ns: nat)

  predicate ValidClock(c: Clock) {
    c.hour < 24 && c.minute < 60 && c.second < 60 && c.ns < NS_PER_SECOND
  }

  /** The instant with these UTC fields. */
  function InstantOf(d: Date, c: Clock): int
    requires ValidDate(d)
  {
    Days(DayNumber(d) - DAYS_IN_YEAR_ZERO) + Seconds((c.hour * 60 + c.minute) * 60 + c.second) + c.ns
  }

  function ClockOf(t: Instant): (c: Clock)
    ensures ValidClock(c)
    ensures NanosOfDay(t) == Seconds((c.hour * 60 + c.minute) * 60 + c.second) + c.ns
  {
    var s := NanosOfDay(t) / NS_PER_SECOND;
    Clock(s / 3600, s / 60 % 60, s % 60, NanosOfDay(t) % NS_PER_SECOND)
  }

  function FormatClock(c: Clock): string
    requires ValidClock(c)
  {
    Pad2(c.hour) + ":" + Pad2(c.minute) + ":" + Pad2(c.second) + FormatFraction(c.ns)
  }

  function FormatFields(d: Date, c: Clock): string
    requires ValidDate(d) && d.year <= 9999 && ValidClock(c)
  {
    FormatDate(d) + "T" + FormatClock(c) + "Z"
  }

  /** t.UTC().Format(time.RFC3339Nano). */
  function Format(t: Instant): string {
    FourDigitYear(DayOf(t));
    FormatFields(DateOf(DayOf(t)), ClockOf(t))
  }

  // ---------------------------------------------------------------- parsing

  predicate DigitsAt(s: string, from: nat, n: nat) {
    from + n <= |s| && AllDigits(s[from..from + n])
  }

  function ParseDate(s: string): (r: Option<Date>)
    ensures r.Some? ==> ValidDate(r.value)
  {
    if |s| != 10 || !DigitsAt(s, 0, 4) || s[4] != '-' || !DigitsAt(s, 5, 2) || s[7] != '-' || !DigitsAt(s, 8, 2) then None
    else
      var d := Date(Value(s[0..4]), Value(s[5..7]), Value(s[8..10]));
      if ValidDate(d) then Some(d) else None
  }

  /** The "15" of the layout takes one digit or two. */
  function HourDigits(s: string): (n: nat)
    ensures n <= |s|
  {
    if DigitsAt(s, 0, 2) then 2 else if DigitsAt(s, 0, 1) then 1 else 0
  }

  /** Digits s starts with. */
  function DigitRun(s: string): (n: nat)
    ensures n <= |s| && AllDigits(s[..n])
    ensures n < |s| ==> !IsDigit(s[n])
  {
    if s == "" || !IsDigit(s[0]) then 0 else
      var n := 1 + DigitRun(s[1..]);
      assert forall i :: 1 <= i < n ==> s[..n][i] == s[1..][..n - 1][i - 1];
      n
  }

  /** Bytes of an optional fraction: a comma or a period and at least one digit. */
  function FractionLength(s: string): (n: nat)
    ensures n <= |s|
  {
    if |s| >= 2 && (s[0] == '.' || s[0] == ',') && IsDigit(s[1]) then 1 + DigitRun(s[1..]) else 0
  }

  /** Nanoseconds of a fraction; digits after the ninth are dropped. */
  function FractionValue(digits: string): nat
    requires AllDigits(digits)
  {
    var d := if |digits| > 9 then digits[..9] else digits;
    Value(d) * Pow10(9 - |d|)
  }

  /** The "Z07:00" of the layout, to the end of the text: seconds east of UTC. */
  function ParseZone(s: string): Option<int> {
    if s == "Z" then Some(0)
    else if |s| == 6 && (s[0] == '+' || s[0] == '-') && DigitsAt(s, 1, 2) && s[3] == ':' && DigitsAt(s, 4, 2) then
      var h, m := Value(s[1..3]), Value(s[4..6]);
      if h > 24 || m > 60 then None
      else Some(if s[0] == '-' then -(h * 3600 + m * 60) else h * 3600 + m * 60)
    else None
  }

  /** What follows the hour: minutes, seconds, an optional fraction and the zone. The result is nanoseconds. */
  function ParseTail(s: string): Option<int> {
    if |s| < 6 || s[0] != ':' || !DigitsAt(s, 1, 2) || s[3] != ':' || !DigitsAt(s, 4, 2) then None
    else
      var m, sec := Value(s[1..3]), Value(s[4..6]);
      var f := FractionLength(s[6..]);
      var ns := if f == 0 then 0 else
                  assert s[6..][1..f] == s[6..][1..][..f - 1];
                  FractionValue(s[6..][1..f]);
      if m >= 60 || sec >= 60 then None
      else
        match ParseZone(s[6 + f..])
        case None => None
        case Some(zone) => Some(Seconds(m * 60 + sec - zone) + ns)
  }

  /** What follows the T: the hour and the tail. The result is nanoseconds since midnight UTC. */
  function ParseTime(t: string): Option<int> {
    var h := HourDigits(t);
    if h == 0 then None
    else
      assert AllDigits(t[0..h]);
      assert t[0..h] == t[..h];
      var hour := Value(t[..h]);
      if hour >= 24 then None
      else
        match ParseTail(t[h..])
        case None => None
        case Some(rest) => Some(Seconds(hour * 3600) + rest)
  }

  /** time.Parse(time.RFC3339Nano, s). */
  function Parse(s: string): Option<int> {
    if |s| < 11 || s[10] != 'T' then None
    else
      match ParseDate(s[..10])
      case None => None
      case Some(d) =>
        match ParseTime(s[11..])
        case None => None
        case Some(n) => Some(Days(DayNumber(d) - DAYS_IN_YEAR_ZERO) + n)
  }

  // ---------------------------------------------------------------- what was printed is read back

  lemma TenTimes(v: nat, k: nat)
    ensures v * Pow10(k + 1) == 10 * (v * Pow10(k))
  {
    assert Pow10(k + 1) == 10 * Pow10(k);
  }

  lemma {:induction false} TrimZerosKeepsValue(s: string)
    requires AllDigits(s)
    ensures AllDigits(TrimZeros(s))
    ensures Value(TrimZeros(s)) * Pow10(|s| - |TrimZeros(s)|) == Value(s)
    ensures Value(s) > 0 ==> TrimZeros(s) != ""
  {
    if s != "" && s[|s| - 1] == '0' {
      var front := s[..|s| - 1];
      TrimZerosKeepsValue(front);
      var k := |front| - |TrimZeros(front)|;
      assert Value(s) == 10 * Value(front);
      TenTimes(Value(TrimZeros(front)), k);
    }
  }

  lemma {:induction false} DigitRunStopsAtLetter(d: string, c: char, t: string)
    requires AllDigits(d) && !IsDigit(c)
    ensures DigitRun(d + [c] + t) == |d|
  {
    var s := d + [c] + t;
    var n := DigitRun(s);
    assert forall i :: 0 <= i < |d| ==> IsDigit(s[i]);
    assert s[|d|] == c;
    assert forall m :: |d| < m <= |s| ==> s[..m][|d|] == c;
  }

  lemma FractionReadBack(ns: nat)
    requires ns < NS_PER_SECOND
    ensures var f := FormatFraction(ns);
      && FractionLength(f + "Z") == |f|
      && (f != "" ==> AllDigits(f[1..]) && FractionValue(f[1..]) == ns)
      && (f == "" ==> ns == 0)
  {
    if ns > 0 {
      var digits := TrimZeros(Pad9(ns));
      TrimZerosKeepsValue(Pad9(ns));
      var f := FormatFraction(ns);
      assert f[1..] == digits;
      var s := f + "Z";
      assert s[1..] == digits + ['Z'] + "";
      DigitRunStopsAtLetter(digits, 'Z', "");
    }
  }

  lemma TailReadBack(m: nat, s: nat, ns: nat)
    requires m < 60 && s < 60 && ns < NS_PER_SECOND
    ensures ParseTail(":" + Pad2(m) + ":" + Pad2(s) + FormatFraction(ns) + "Z")
         == Some(Seconds(m * 60 + s) + ns)
  {
    var f := FormatFraction(ns);
    var t := ":" + Pad2(m) + ":" + Pad2(s) + f + "Z";
    FractionReadBack(ns);
    assert t[1..3] == Pad2(m);
    assert t[4..6] == Pad2(s);
    assert t[6..] == f + "Z";
    assert t[6 + |f|..] == "Z";
    if f != "" {
      assert t[6..][1..|f|] == f[1..];
    }
  }

  lemma DateReadBack(d: Date)
    requires ValidDate(d) && d.year <= 9999
    ensures ParseDate(FormatDate(d)) == Some(d)
  {
    var s := FormatDate(d);
    assert s[0..4] == Pad4(d.year);
    assert s[5..7] == Pad2(d.month);
    assert s[8..10] == Pad2(d.day);
  }

  lemma FieldsReadBack(d: Date, c: Clock)
    requires ValidDate(d) && d.year <= 9999 && ValidClock(c)
    ensures Parse(FormatFields(d, c)) == Some(InstantOf(d, c))
  {
    hide ParseDate, ParseTail, DayNumber, ValidDate, Value, FormatFraction, Pad2, Pad4;
    var f := FormatFields(d, c);
    DateReadBack(d);
    assert f[..10] == FormatDate(d);
    assert f[11..][0..2] == f[11..][..2] == Pad2(c.hour);
    assert HourDigits(f[11..]) == 2;
    assert f[13..] == ":" + Pad2(c.minute) + ":" + Pad2(c.second) + FormatFraction(c.ns) + "Z";
    TailReadBack(c.minute, c.second, c.ns);
  }

  lemma InstantFromFields(t: Instant)
    ensures InstantOf(DateOf(DayOf(t)), ClockOf(t)) == t
  {
    var n := DayOf(t);
    assert DayNumber(DateOf(n)) == n;
  }

  /** time.Parse undoes Format for every instant of the years 0 to 9999. */
  lemma ParseReadsFormat(t: Instant)
    ensures Parse(Format(t)) == Some(t as int)
  {
    FourDigitYear(DayOf(t));
    FieldsReadBack(DateOf(DayOf(t)), ClockOf(t));
    InstantFromFields(t);
  }

  // ---------------------------------------------------------------- the calendar, anchored

  lemma MonthsOnlyGrow(y: nat, m: nat, n: nat)
    requires 1 <= m < n <= 12
    ensures DaysBeforeMonth(y, m) + DaysIn(y, m) <= DaysBeforeMonth(y, n)
  {
  }

  lemma MonthsFitYear(y: nat, m: nat)
    requires 1 <= m <= 12
    ensures DaysBeforeMonth(y, m) + DaysIn(y, m) <= if IsLeap(y) then 366 else 365
  {
  }

  /** A date before another has the smaller day number. */
  lemma DatesAreOrdered(d: Date, e: Date)
    requires ValidDate(d) && ValidDate(e)
    requires d.year < e.year || (d.year == e.year && (d.month < e.month || (d.month == e.month && d.day < e.day)))
    ensures DayNumber(d) < DayNumber(e)
  {
    if d.year < e.year {
      YearStep(d.year);
      YearsOnlyGrow(d.year + 1, e.year);
      MonthsFitYear(d.year, d.month);
      hide DaysBeforeYear, DaysBeforeMonth, DaysIn, IsLeap;
    } else if d.month < e.month {
      MonthsOnlyGrow(d.year, d.month, e.month);
      hide DaysBeforeYear, DaysBeforeMonth, DaysIn, IsLeap;
    }
  }

  /** DateOf is the inverse of DayNumber. */
  lemma DateOfDayNumber(d: Date)
    requires ValidDate(d)
    ensures DateOf(DayNumber(d)) == d
  {
    var e := DateOf(DayNumber(d));
    if e != d {
      if d.year < e.year || (d.year == e.year && (d.month < e.month || (d.month == e.month && d.day < e.day))) {
        DatesAreOrdered(d, e);
      } else {
        DatesAreOrdered(e, d);
      }
    }
  }

  /** The instant with these fields is printed with these fields. */
  lemma FormatOfFields(d: Date, c: Clock)
    requires ValidDate(d) && d.year <= 9999 && ValidClock(c) && InRange(InstantOf(d, c))
    ensures Format(InstantOf(d, c)) == FormatFields(d, c)
  {
    hide FormatFields, DayNumber, Format;
    var t: Instant := InstantOf(d, c);
    var ofDay := Seconds((c.hour * 60 + c.minute) * 60 + c.second) + c.ns;
    SplitsAtDay(t, DayNumber(d), ofDay);
    ClockIsUnique(t, c);
    DateOfDayNumber(d);
    FormatIs(t);
  }

  lemma FormatIs(t: Instant)
    ensures DateOf(DayOf(t)).year <= 9999 && Format(t) == FormatFields(DateOf(DayOf(t)), ClockOf(t))
  {
    FourDigitYear(DayOf(t));
    hide FormatFields;
  }

  lemma SplitsAtDay(t: Instant, day: nat, ofDay: nat)
    requires ofDay < NS_PER_DAY && t == Days(day - DAYS_IN_YEAR_ZERO) + ofDay
    ensures DayOf(t) == day && NanosOfDay(t) == ofDay
  {
    assert t == Days(DayOf(t) - DAYS_IN_YEAR_ZERO) + NanosOfDay(t);
    hide DayOf, NanosOfDay, InRange;
  }

  lemma ClockIsUnique(t: Instant, c: Clock)
    requires ValidClock(c) && NanosOfDay(t) == Seconds((c.hour * 60 + c.minute) * 60 + c.second) + c.ns
    ensures ClockOf(t) == c
  {
    var e := ClockOf(t);
    hide ClockOf, NanosOfDay;
    assert ValidClock(e);
  }

  /** Instant 0 is Go's zero Time, and the Unix epoch lies where it belongs. */
  lemma AnchoredInstants()
    ensures Format(0) == "0001-01-01T00:00:00Z"
    ensures Format(62_135_596_800_000_000_000) == "1970-01-01T00:00:00Z"
  {
    var midnight := Clock(0, 0, 0, 0);
    var first, epoch := Date(1, 1, 1), Date(1970, 1, 1);
    assert DayNumber(first) == 366 && DayNumber(epoch) == 719_528;
    FormatOfFields(first, midnight);
    FormatOfFields(epoch, midnight);
    hide Format;
    FieldsOfMidnight();
  }

  /** Digits of one length are determined by their value. */
  lemma {:induction false} SameDigits(a: string, b: string)
    requires AllDigits(a) && AllDigits(b) && |a| == |b| && Value(a) == Value(b)
    ensures a == b
  {
    if a != "" {
      var x, y := a[..|a| - 1], b[..|b| - 1];
      assert a == x + [a[|a| - 1]] && b == y + [b[|b| - 1]];
      LastDigitTells(Value(x), Value(y), a[|a| - 1], b[|b| - 1]);
      hide Value;
      SameDigits(x, y);
    }
  }

  lemma LastDigitTells(m: nat, n: nat, c: char, d: char)
    requires IsDigit(c) && IsDigit(d) && 10 * m + DigitValue(c) == 10 * n + DigitValue(d)
    ensures m == n && c == d
  {
    assert Digit(DigitValue(c)) == c && Digit(DigitValue(d)) == d;
  }

  lemma ValueOfFour(a: char, b: char, c: char, d: char)
    requires IsDigit(a) && IsDigit(b) && IsDigit(c) && IsDigit(d)
    ensures Value([a, b]) == 10 * DigitValue(a) + DigitValue(b)
    ensures Value([a, b, c, d]) == 1000 * DigitValue(a) + 100 * DigitValue(b) + 10 * DigitValue(c) + DigitValue(d)
  {
    assert [a, b, c, d][..3] == [a, b, c] && [a, b, c][..2] == [a, b] && [a, b][..1] == [a] && [a][..0] == [];
    assert Value([]) == 0;
    assert Value([a]) == DigitValue(a);
    assert Value([a, b]) == 10 * Value([a]) + DigitValue(b);
    assert Value([a, b, c]) == 10 * Value([a, b]) + DigitValue(c);
  }

  lemma Pads()
    ensures Pad2(0) == "00" && Pad2(1) == "01" && Pad4(1) == "0001" && Pad4(1970) == "1970"
  {
    hide Value, Pad2, Pad4;
    ValueOfFour('0', '0', '0', '1');
    ValueOfFour('0', '1', '0', '1');
    ValueOfFour('1', '9', '7', '0');
    SameDigits(Pad2(0), "00");
    SameDigits(Pad2(1), "01");
    SameDigits(Pad4(1), "0001");
    SameDigits(Pad4(1970), "1970");
  }

  /** The instants in range are those from the first of year 0 to the last of year 9999. */
  lemma RangeEnds()
    ensures var first := InstantOf(Date(0, 1, 1), Clock(0, 0, 0, 0)); InRange(first) && !InRange(first - 1)
    ensures var last := InstantOf(Date(9999, 12, 31), Clock(23, 59, 59, 999_999_999)); InRange(last) && !InRange(last + 1)
  {
    hide DayNumber, InRange;
    EndDays();
    RangeIs(InstantOf(Date(0, 1, 1), Clock(0, 0, 0, 0)));
    RangeIs(InstantOf(Date(0, 1, 1), Clock(0, 0, 0, 0)) - 1);
    RangeIs(InstantOf(Date(9999, 12, 31), Clock(23, 59, 59, 999_999_999)));
    RangeIs(InstantOf(Date(9999, 12, 31), Clock(23, 59, 59, 999_999_999)) + 1);
  }

  lemma RangeIs(t: int)
    ensures InRange(t) <==> -31_622_400_000_000_000 <= t < 315_537_897_600_000_000_000
  {
  }

  lemma EndDays()
    ensures ValidDate(Date(0, 1, 1)) && DayNumber(Date(0, 1, 1)) == 0
    ensures ValidDate(Date(9999, 12, 31)) && DayNumber(Date(9999, 12, 31)) == 3_652_424
  {
    hide DaysBeforeYear, DaysBeforeMonth, IsLeap;
    EndYears();
    EndMonths();
  }

  lemma EndMonths()
    ensures DaysBeforeMonth(0, 1) == 0 && DaysBeforeMonth(9999, 12) == 334
  {
  }

  lemma EndYears()
    ensures DaysBeforeYear(0) == 0 && DaysBeforeYear(9999) == 3_652_060
  {
  }

  lemma FieldsOfMidnight()
    ensures FormatFields(Date(1, 1, 1), Clock(0, 0, 0, 0)) == "0001-01-01T00:00:00Z"
    ensures FormatFields(Date(1970, 1, 1), Clock(0, 0, 0, 0)) == "1970-01-01T00:00:00Z"
  {
    hide Pad2, Pad4;
    Pads();
  }

  /** A timestamp with a numeric zone is read as that much earlier, or later when the zone is west. */
  lemma ParseReadsZones(d: Date, c: Clock, west: bool, h: nat, m: nat)
    requires ValidDate(d) && d.year <= 9999 && ValidClock(c) && h <= 24 && m <= 60
    ensures var zone := (if west then "-" else "+") + Pad2(h) + ":" + Pad2(m);
      Parse(FormatDate(d) + "T" + FormatClock(c) + zone)
      == Some(InstantOf(d, c) + Seconds(if west then h * 3600 + m * 60 else -(h * 3600 + m * 60)))
  {
    hide ParseDate, DayNumber, ValidDate, Value, FormatFraction, Pad2, Pad4, ParseTail;
    var zone := (if west then "-" else "+") + Pad2(h) + ":" + Pad2(m);
    assert zone == ZoneText(west, h, m);
    var s := FormatDate(d) + "T" + FormatClock(c) + zone;
    DateReadBack(d);
    assert s[..10] == FormatDate(d) by { DateLength(d); }
    assert |FormatDate(d)| == 10 by { DateLength(d); }
    assert s[11..][0..2] == s[11..][..2] == Pad2(c.hour);
    assert HourDigits(s[11..]) == 2;
    assert s[13..] == ":" + Pad2(c.minute) + ":" + Pad2(c.second) + FormatFraction(c.ns) + zone;
    TailWithZone(c.minute, c.second, c.ns, west, h, m);
  }

  lemma DateLength(d: Date)
    requires ValidDate(d) && d.year <= 9999
    ensures |FormatDate(d)| == 10
  {
  }

  function ZoneText(west: bool, h: nat, m: nat): string
    requires h < 100 && m < 100
  {
    (if west then "-" else "+") + Pad2(h) + ":" + Pad2(m)
  }

  lemma ZoneReads(west: bool, h: nat, m: nat)
    requires h <= 24 && m <= 60
    ensures var zone := ZoneText(west, h, m);
      && zone != "" && !IsDigit(zone[0]) && zone[0] != '.' && zone[0] != ','
      && ParseZone(zone) == Some(if west then -(h * 3600 + m * 60) else h * 3600 + m * 60)
  {
    hide Pad2, Value;
    var zone := ZoneText(west, h, m);
    assert zone[1..3] == Pad2(h) && zone[4..6] == Pad2(m);
  }

  lemma TailWithZone(m: nat, s: nat, ns: nat, west: bool, zh: nat, zm: nat)
    requires m < 60 && s < 60 && ns < NS_PER_SECOND && zh <= 24 && zm <= 60
    ensures ParseTail(":" + Pad2(m) + ":" + Pad2(s) + FormatFraction(ns) + ZoneText(west, zh, zm))
      == Some(Seconds(m * 60 + s + if west then zh * 3600 + zm * 60 else -(zh * 3600 + zm * 60)) + ns)
  {
    hide FormatFraction, FractionLength, FractionValue, Pad2, Value, ZoneText, ParseZone;
    var zone, f := ZoneText(west, zh, zm), FormatFraction(ns);
    ZoneReads(west, zh, zm);
    FractionBefore(ns, zone);
    var t := ":" + Pad2(m) + ":" + Pad2(s) + f + zone;
    assert t[1..3] == Pad2(m) && t[4..6] == Pad2(s);
    assert t[6..] == f + zone && t[6 + |f|..] == zone;
    assert f != "" ==> t[6..][1..|f|] == f[1..];
  }

  lemma FractionShape(ns: nat)
    requires 0 < ns < NS_PER_SECOND
    ensures var f := FormatFraction(ns); |f| >= 2 && f[0] == '.'
  {
    TrimZerosKeepsValue(Pad9(ns));
    hide Value, Pow10;
  }

  lemma FractionBefore(ns: nat, rest: string)
    requires ns < NS_PER_SECOND && rest != "" && !IsDigit(rest[0]) && rest[0] != '.' && rest[0] != ','
    ensures var f := FormatFraction(ns);
      && FractionLength(f + rest) == |f|
      && (f != "" ==> AllDigits(f[1..]) && FractionValue(f[1..]) == ns)
      && (f == "" ==> ns == 0)
  {
    FractionReadBack(ns);
    var f := FormatFraction(ns);
    if ns == 0 {
      assert f + rest == rest;
    } else {
      var digits := f[1..];
      assert f == ['.'] + digits && digits != "" by { FractionShape(ns); }
      hide FormatFraction, FractionValue, Value;
      assert (f + rest)[1..] == digits + [rest[0]] + rest[1..];
      DigitRunStopsAtLetter(digits, rest[0], rest[1..]);
      assert digits[0] == (f + rest)[1];
    }
  }

  // ---------------------------------------------------------------- fields out of range, and what else is read

  /** A date of four, two and two digits is read exactly if it is in the calendar. */
  lemma ParseDateExactly(y: nat, m: nat, day: nat)
    requires y <= 9999 && m < 100 && day < 100
    ensures ParseDate(Pad4(y) + "-" + Pad2(m) + "-" + Pad2(day)) ==
      if 1 <= m <= 12 && 1 <= day <= DaysIn(y, m) then Some(Date(y, m, day)) else None
  {
    hide Pad4, Pad2, Value, DaysIn;
    var s := Pad4(y) + "-" + Pad2(m) + "-" + Pad2(day);
    assert s[0..4] == Pad4(y) && s[5..7] == Pad2(m) && s[8..10] == Pad2(day);
  }

  lemma Midnight(d: Date)
    requires ValidDate(d)
    ensures InstantOf(d, Clock(0, 0, 0, 0)) == Days(DayNumber(d) - DAYS_IN_YEAR_ZERO)
  {
    hide DayNumber;
  }

  /** What is read behind the date: the hour, and the rest. */
  lemma ParseBehindDate(d: Date, hour: string, rest: string)
    requires ValidDate(d) && d.year <= 9999 && AllDigits(hour) && 1 <= |hour| <= 2
    requires |hour| == 1 ==> rest != "" && !IsDigit(rest[0])
    ensures Parse(FormatDate(d) + "T" + hour + rest) ==
      if Value(hour) >= 24 then None
      else match ParseTail(rest) case None => None case Some(t) => Some(InstantOf(d, Clock(0, 0, 0, 0)) + Seconds(Value(hour) * 3600) + t)
  {
    hide ParseDate, DayNumber, ValidDate, ParseTime, ParseTail, Value, Pad2, Pad4, InstantOf, Days, Seconds;
    Midnight(d);
    var s := FormatDate(d) + "T" + hour + rest;
    DateReadBack(d);
    DateLength(d);
    assert s[..10] == FormatDate(d) && s[10] == 'T' && s[11..] == hour + rest;
    TimeReads(hour, rest);
  }

  lemma TimeReads(hour: string, rest: string)
    requires AllDigits(hour) && 1 <= |hour| <= 2 && (|hour| == 1 ==> rest != "" && !IsDigit(rest[0]))
    ensures ParseTime(hour + rest) ==
      if Value(hour) >= 24 then None
      else match ParseTail(rest) case None => None case Some(t) => Some(Seconds(Value(hour) * 3600) + t)
  {
    hide Value, ParseTail, HourDigits, AllDigits;
    HourReads(hour, rest);
    var t := hour + rest;
    assert t[..|hour|] == hour;
    assert t[|hour|..] == rest;
  }

  lemma HourReads(hour: string, rest: string)
    requires AllDigits(hour) && 1 <= |hour| <= 2 && (|hour| == 1 ==> rest != "" && !IsDigit(rest[0]))
    ensures HourDigits(hour + rest) == |hour|
  {
    var t := hour + rest;
    assert t[0..1] == hour[..1];
    if |hour| == 2 {
      assert t[0..2] == hour;
    } else {
      assert t[0..2][1] == rest[0];
    }
  }

  /** A time of day is read exactly if it is one; the hour may have one digit, and a fraction any number of them. */
  lemma ParseClockExactly(d: Date, hour: string, m: nat, s: nat, point: char, digits: string)
    requires ValidDate(d) && d.year <= 9999 && AllDigits(hour) && 1 <= |hour| <= 2 && m < 100 && s < 100
    requires (point == '.' || point == ',') && digits != "" && AllDigits(digits)
    ensures Parse(FormatDate(d) + "T" + hour + (":" + Pad2(m) + ":" + Pad2(s) + [point] + digits + "Z")) ==
      if Value(hour) < 24 && m < 60 && s < 60
      then Some(InstantOf(d, Clock(0, 0, 0, 0)) + Seconds(Value(hour) * 3600) + (Seconds(m * 60 + s) + FractionValue(digits)))
      else None
  {
    hide Value, Pad2, Pad4, FormatDate, Parse, ParseTail, FractionValue;
    ParseBehindDate(d, hour, ":" + Pad2(m) + ":" + Pad2(s) + [point] + digits + "Z");
    TailExactly(m, s, point, digits);
  }

  lemma TailExactly(m: nat, s: nat, point: char, digits: string)
    requires m < 100 && s < 100 && (point == '.' || point == ',') && digits != "" && AllDigits(digits)
    ensures ParseTail(":" + Pad2(m) + ":" + Pad2(s) + [point] + digits + "Z") ==
      if m < 60 && s < 60 then Some(Seconds(m * 60 + s) + FractionValue(digits)) else None
  {
    hide Value, Pad2, FractionValue;
    var fraction := [point] + digits + "Z";
    var t := ":" + Pad2(m) + ":" + Pad2(s) + fraction;
    assert ":" + Pad2(m) + ":" + Pad2(s) + [point] + digits + "Z" == t;
    assert t[1..3] == Pad2(m) && t[4..6] == Pad2(s) && t[6..] == fraction;
    assert fraction[1..] == digits + ['Z'] + "";
    DigitRunStopsAtLetter(digits, 'Z', "");
    assert FractionLength(fraction) == 1 + |digits|;
    assert fraction[1..1 + |digits|] == digits;
    assert t[6 + 1 + |digits|..] == "Z";
  }

  lemma FractionOf(digits: string)
    requires AllDigits(digits)
    ensures |digits| >= 9 ==> FractionValue(digits) == Value(digits[..9])
    ensures |digits| <= 9 ==> FractionValue(digits) == Value(digits) * Pow10(9 - |digits|)
  {
    hide Value;
    assert Pow10(0) == 1;
    assert |digits| == 9 ==> digits[..9] == digits;
  }

  /** A fraction counts nanoseconds: nine digits as they are, fewer filled up with zeros, and more cut off. */
  lemma FractionCounts(ns: nat, more: string)
    requires ns < NS_PER_SECOND && AllDigits(more)
    ensures FractionValue(Pad9(ns) + more) == ns
    ensures |more| < 9 ==> FractionValue(more) == Value(more) * Pow10(9 - |more|)
  {
    hide Value, FractionValue, Pow10, Pad9;
    assert (Pad9(ns) + more)[..9] == Pad9(ns);
    FractionOf(Pad9(ns) + more);
    FractionOf(more);
  }

  // ---------------------------------------------------------------- a timestamp cut short is not read at all

  predicate EndsInZone(s: string) {
    s != "" && (s[|s| - 1] == 'Z' || (|s| >= 6 && s[|s| - 3] == ':' && (s[|s| - 6] == '-' || s[|s| - 6] == '+')))
  }

  lemma TailEndsInZone(t: string)
    requires ParseTail(t).Some?
    ensures EndsInZone(t)
  {
    hide Value, FractionLength, FractionValue;
    var zone := t[6 + FractionLength(t[6..])..];
    assert ParseZone(zone).Some?;
    assert zone == t[|t| - |zone|..];
    assert t[|t| - 1] == zone[|zone| - 1];
    assert zone != "Z" ==> t[|t| - 3] == zone[3] && t[|t| - 6] == zone[0];
  }

  /** A text that parses ends in Z or in a numeric zone. */
  lemma ParsedTextEndsInZone(s: string)
    requires Parse(s).Some?
    ensures |s| >= 12
    ensures s[|s| - 1] == 'Z' || (s[|s| - 3] == ':' && (s[|s| - 6] == '-' || s[|s| - 6] == '+'))
  {
    hide DayNumber, ValidDate, ParseDate, Value, ParseTail, HourDigits;
    var t := s[11..];
    var tail := t[HourDigits(t)..];
    assert ParseTail(tail).Some?;
    TailEndsInZone(tail);
    assert tail == s[|s| - |tail|..];
    assert s[|s| - 1] == tail[|tail| - 1];
    assert |tail| >= 6 ==> s[|s| - 3] == tail[|tail| - 3] && s[|s| - 6] == tail[|tail| - 6];
  }

  predicate ClockChars(s: string) {
    forall i :: 0 <= i < |s| ==> IsDigit(s[i]) || s[i] == '.' || s[i] == ':'
  }

  lemma ClockIsPlain(c: Clock)
    requires ValidClock(c)
    ensures ClockChars(FormatClock(c))
  {
    FractionReadBack(c.ns);
    var f := FormatFraction(c.ns);
    assert f != "" ==> f == "." + f[1..];
    assert ClockChars(f);
  }

  /** The clock part has its colons in the third and sixth place, and in between digits. */
  lemma ClockShape(c: Clock)
    requires ValidClock(c)
    ensures var s := FormatClock(c); |s| >= 8 && ClockChars(s) && IsDigit(s[0]) && IsDigit(s[1]) && s[2] == ':'
  {
    ClockIsPlain(c);
    var s := FormatClock(c);
    assert s[0..2] == Pad2(c.hour) && s[2] == ':';
    assert s[0] == Pad2(c.hour)[0] && s[1] == Pad2(c.hour)[1];
    hide FormatFraction;
  }

  /** A proper prefix of a printed timestamp does not end in a zone. */
  lemma NoZoneInside(d: Date, c: Clock, k: nat)
    requires ValidDate(d) && d.year <= 9999 && ValidClock(c)
    requires 12 <= k < |FormatFields(d, c)|
    ensures var p := FormatFields(d, c)[..k];
      p[k - 1] != 'Z' && !(p[k - 3] == ':' && (p[k - 6] == '-' || p[k - 6] == '+'))
  {
    hide FormatClock, Value, DaysIn;
    ClockShape(c);
    var f, date, clock := FormatFields(d, c), FormatDate(d), FormatClock(c);
    assert forall i :: 11 <= i < k ==> f[i] == clock[i - 11];
    assert f[10] == 'T' && f[9] == date[9] && f[8] == date[8] && f[7] == date[7] && f[6] == date[6];
    assert IsDigit(date[6]);
  }

  /** No proper prefix of a printed timestamp parses. */
  lemma CutFieldsAreRejected(d: Date, c: Clock, k: nat)
    requires ValidDate(d) && d.year <= 9999 && ValidClock(c)
    requires k < |FormatFields(d, c)|
    ensures Parse(FormatFields(d, c)[..k]).None?
  {
    hide Parse, FormatDate, FormatClock, ClockChars;
    var p := FormatFields(d, c)[..k];
    if Parse(p).Some? {
      ParsedTextEndsInZone(p);
      NoZoneInside(d, c, k);
    }
  }

  lemma CutTimestampIsRejected(t: Instant, k: nat)
    requires k < |Format(t)|
    ensures Parse(Format(t)[..k]).None?
  {
    FourDigitYear(DayOf(t));
    CutFieldsAreRejected(DateOf(DayOf(t)), ClockOf(t), k);
  }

  predicate StampChar(c: char) {
    IsDigit(c) || c == '-' || c == ':' || c == '.' || c == 'T' || c == 'Z'
  }

  lemma FieldsChars(d: Date, c: Clock)
    requires ValidDate(d) && d.year <= 9999 && ValidClock(c)
    ensures var f := FormatFields(d, c);
      20 <= |f| <= 30 && forall i :: 0 <= i < |f| ==> StampChar(f[i])
  {
    ClockIsPlain(c);
    var p := FormatDate(d);
    assert forall i :: 0 <= i < |p| ==> StampChar(p[i]);
    assert |FormatFraction(c.ns)| <= 10;
    hide FormatDate, Pad2, Pad4, FormatFraction;
  }

  lemma FormatChars(t: Instant)
    ensures 20 <= |Format(t)| <= 30 && forall i :: 0 <= i < |Format(t)| ==> StampChar(Format(t)[i])
  {
    FourDigitYear(DayOf(t));
    FieldsChars(DateOf(DayOf(t)), ClockOf(t));
    hide FormatFields;
  }
}
