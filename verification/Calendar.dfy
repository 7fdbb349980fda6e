/** Date.UTC (sections 21.4.1.3 to 21.4.1.13 and 21.4.3.4 of ECMA-262) on the fields of a ts14, the
    fourteen digits yyyyMMddHHmmss: `ts14ToEpochMs` of shared/registry-retention.ts. */
module Calendar {
  import opened Text

  predicate IsTs14(s: string) { |s| == 14 && AllDigits(s) }

  datatype Moment = Moment(year: int, month: int, day: int, hour: int, minute: int, second: int)

  function Fields(s: string): Moment
    requires IsTs14(s)
  {
    Moment(Value(s[..4]), Value(s[4..6]), Value(s[6..8]), Value(s[8..10]), Value(s[10..12]), Value(s[12..14]))
  }

  // ---------------------------------------------------------------- Date.UTC

  /** DayFromYear; `/` floors here, as the standard's floor does. */
  function DayFromYear(y: int): int { 365 * (y - 1970) + (y - 1969) / 4 - (y - 1901) / 100 + (y - 1601) / 400 }

  predicate IsLeap(y: int) { y % 4 == 0 && (y % 100 != 0 || y % 400 == 0) }

  function MonthLength(y: int, m: int): (n: int)
    ensures 28 <= n <= 31
  {
    if m == 1 then (if IsLeap(y) then 29 else 28) else if m in {3, 5, 8, 10} then 30 else 31
  }

  /** The days of the year `y` before its month `m`, counted from 0. */
  function DaysBefore(y: int, m: nat): int { if m == 0 then 0 else DaysBefore(y, m - 1) + MonthLength(y, m - 1) }

  /** MakeDay: a month beyond the twelve runs over into the years, a day beyond the month into the days. */
  function MakeDay(y: int, m: int, d: int): int {
    DayFromYear(y + m / 12) + DaysBefore(y + m / 12, m % 12) + d - 1
  }

  function TimeOf(day: int, t: Moment): int { day * 86400000 + t.hour * 3600000 + t.minute * 60000 + t.second * 1000 }

  /** Date.UTC takes a year below 100 in the nineteen-hundreds. */
  function InCentury(t: Moment): Moment { if 0 <= t.year <= 99 then t.(year := 1900 + t.year) else t }

  /** Date.UTC of the fields; the month counts from 1 here. */
  function DateUtc(t: Moment): int {
    var c := InCentury(t);
    TimeOf(MakeDay(c.year, c.month - 1, c.day), c)
  }

  /** `ts14ToEpochMs`, on what its regular expression accepts. */
  function Epoch(s: string): int
    requires IsTs14(s)
  {
    DateUtc(Fields(s))
  }

  // ---------------------------------------------------------------- the two orders

  /** A date and a time that exist. */
  predicate IsValid(t: Moment) {
    && 1 <= t.month <= 12 && 1 <= t.day <= MonthLength(t.year, t.month - 1)
    && 0 <= t.hour <= 23 && 0 <= t.minute <= 59 && 0 <= t.second <= 59
  }

  lemma Fours(y: int)
    ensures (y + 1 - 1969) / 4 - (y - 1969) / 4 == if y % 4 == 0 then 1 else 0
  {
  }

  lemma Hundreds(y: int)
    ensures (y + 1 - 1901) / 100 - (y - 1901) / 100 == if y % 100 == 0 then 1 else 0
  {
  }

  lemma FourHundreds(y: int)
    ensures (y + 1 - 1601) / 400 - (y - 1601) / 400 == if y % 400 == 0 then 1 else 0
  {
  }

  lemma FourDivides(y: int)
    ensures y % 100 == 0 ==> y % 4 == 0
    ensures y % 400 == 0 ==> y % 100 == 0
  {
    if y % 100 == 0 { assert y == 4 * (25 * (y / 100)); }
    if y % 400 == 0 { assert y == 100 * (4 * (y / 400)); }
  }

  function YearLength(y: int): int { if IsLeap(y) then 366 else 365 }

  lemma YearsAscend(y: int)
    ensures DayFromYear(y + 1) - DayFromYear(y) == YearLength(y)
  {
    Fours(y);
    Hundreds(y);
    FourHundreds(y);
    FourDivides(y);
  }

  lemma {:induction false} LaterYear(y: int, z: int)
    requires y < z
    ensures DayFromYear(y) + YearLength(y) <= DayFromYear(z)
    decreases z - y
  {
    YearsAscend(y);
    if y + 1 < z { LaterYear(y + 1, z); }
  }

  lemma YearEnds(y: int)
    ensures DaysBefore(y, 12) == YearLength(y)
  {
    assert DaysBefore(y, 1) == 31;
    assert DaysBefore(y, 2) == 31 + MonthLength(y, 1);
    assert DaysBefore(y, 4) == DaysBefore(y, 2) + 61;
    assert DaysBefore(y, 6) == DaysBefore(y, 4) + 61;
    assert DaysBefore(y, 8) == DaysBefore(y, 6) + 62;
    assert DaysBefore(y, 10) == DaysBefore(y, 8) + 61;
  }

  lemma {:induction false} LaterMonth(y: int, m: nat, k: nat)
    requires m < k
    ensures DaysBefore(y, m) + MonthLength(y, m) <= DaysBefore(y, k)
    decreases k - m
  {
    if m + 1 < k { LaterMonth(y, m + 1, k); }
  }

  /** The twelve months. */
  lemma MonthLengths(y: int)
    ensures MonthLength(y, 1) == if y % 4 == 0 && (y % 100 != 0 || y % 400 == 0) then 29 else 28
    ensures forall m :: 0 <= m < 12 && m != 1 ==> MonthLength(y, m) == [31, 28, 31, 30, 31, 30, 31, 31, 30, 31, 30, 31][m]
  {
  }

  /** The day of a valid date. */
  function DayOf(t: Moment): int { MakeDay(t.year, t.month - 1, t.day) }

  function DayInYear(t: Moment): int
    requires t.month >= 1
  {
    DaysBefore(t.year, t.month - 1) + t.day - 1
  }

  function SecondOf(t: Moment): int { t.hour * 3600 + t.minute * 60 + t.second }

  /** Field by field, the first that differs decides. */
  predicate DateBefore(a: Moment, b: Moment) {
    a.year < b.year || (a.year == b.year && (a.month < b.month || (a.month == b.month && a.day < b.day)))
  }

  predicate Earlier(a: Moment, b: Moment) {
    DateBefore(a, b) || (a.year == b.year && a.month == b.month && a.day == b.day
      && (a.hour < b.hour || (a.hour == b.hour && (a.minute < b.minute || (a.minute == b.minute && a.second < b.second)))))
  }

  lemma DayIs(t: Moment)
    requires IsValid(t)
    ensures DayOf(t) == DayFromYear(t.year) + DayInYear(t)
  {
  }

  lemma YearHolds(t: Moment)
    requires IsValid(t)
    ensures 0 <= DayInYear(t) < YearLength(t.year)
  {
    YearEnds(t.year);
    LaterMonth(t.year, t.month - 1, 12);
    if t.month > 1 { LaterMonth(t.year, 0, t.month - 1); }
  }

  lemma LaterInYear(a: Moment, b: Moment)
    requires IsValid(a) && IsValid(b) && a.year == b.year && DateBefore(a, b)
    ensures DayInYear(a) < DayInYear(b)
  {
    if a.month < b.month { LaterMonth(a.year, a.month - 1, b.month - 1); }
  }

  lemma LaterDate(a: Moment, b: Moment)
    requires IsValid(a) && IsValid(b) && DateBefore(a, b)
    ensures DayOf(a) < DayOf(b)
  {
    DayIs(a);
    DayIs(b);
    if a.year < b.year {
      YearHolds(a);
      YearHolds(b);
      LaterYear(a.year, b.year);
    } else {
      LaterInYear(a, b);
    }
  }

  /** A later moment has the larger epoch, across month lengths and leap years. */
  lemma LaterMoment(a: Moment, b: Moment)
    requires IsValid(a) && IsValid(b) && Earlier(a, b)
    ensures TimeOf(DayOf(a), a) < TimeOf(DayOf(b), b)
  {
    assert 0 <= SecondOf(a) < 86400 && 0 <= SecondOf(b) < 86400;
    if DateBefore(a, b) { LaterDate(a, b); }
  }

  lemma UtcIs(t: Moment)
    ensures DateUtc(t) == TimeOf(DayOf(InCentury(t)), InCentury(t))
  {
  }

  /** Date.UTC orders moments exactly as their fields do, once the years below 100 stand in their century. */
  lemma UtcOrder(a: Moment, b: Moment)
    requires IsValid(InCentury(a)) && IsValid(InCentury(b))
    ensures DateUtc(a) < DateUtc(b) <==> Earlier(InCentury(a), InCentury(b))
  {
    var x, y := InCentury(a), InCentury(b);
    UtcIs(a);
    UtcIs(b);
    if Earlier(x, y) {
      LaterMoment(x, y);
    } else if Earlier(y, x) {
      LaterMoment(y, x);
    }
  }

  // ---------------------------------------------------------------- the origin and the unit

  lemma FirstDay(y: int)
    requires y == 1970
    ensures DayFromYear(y) == 0
  {
  }

  lemma NoDaysBefore(y: int)
    ensures DaysBefore(y, 0) == 0
  {
  }

  lemma FirstMoment(t: Moment)
    requires t.year == 1970 && t.month == 1 && t.day == 1 && t.hour == t.minute == t.second == 0
    ensures DateUtc(t) == 0
  {
    hide DayFromYear, DaysBefore, MonthLength, IsLeap, MakeDay, DayOf, DateUtc;
    FirstDay(t.year);
    NoDaysBefore(t.year);
    UtcIs(t);
    DayIs(t);
  }

  lemma Origin()
    ensures DateUtc(Moment(1970, 1, 1, 0, 0, 0)) == 0
  {
    hide DateUtc;
    FirstMoment(Moment(1970, 1, 1, 0, 0, 0));
  }

  function NextDay(t: Moment): Moment {
    if t.day < MonthLength(t.year, t.month - 1) then t.(day := t.day + 1)
    else if t.month < 12 then t.(month := t.month + 1, day := 1)
    else t.(year := t.year + 1, month := 1, day := 1)
  }

  /** A second later on the wall, through minutes, hours, days, months and years. */
  function NextSecond(t: Moment): Moment {
    if t.second < 59 then t.(second := t.second + 1)
    else if t.minute < 59 then t.(minute := t.minute + 1, second := 0)
    else if t.hour < 23 then t.(hour := t.hour + 1, minute := 0, second := 0)
    else NextDay(t.(hour := 0, minute := 0, second := 0))
  }

  lemma DaysTick(t: Moment)
    requires IsValid(t)
    ensures IsValid(NextDay(t)) && DayOf(NextDay(t)) == DayOf(t) + 1
  {
    var n := NextDay(t);
    if t.day == MonthLength(t.year, t.month - 1) && t.month == 12 {
      YearEnds(t.year);
      YearsAscend(t.year);
    }
    DayIs(t);
    DayIs(n);
  }

  lemma DayNotTime(t: Moment, u: Moment)
    requires t.year == u.year && t.month == u.month && t.day == u.day
    ensures DayOf(t) == DayOf(u)
  {
  }

  lemma NextDayTime(t: Moment)
    ensures NextDay(t).hour == t.hour && NextDay(t).minute == t.minute && NextDay(t).second == t.second
    ensures NextDay(t).year >= t.year
  {
  }

  /** The clock ticks in milliseconds: from the year 100 on, a second later is a thousand more. With the origin
      that fixes the value of every moment of those years. */
  lemma SecondsTick(t: Moment)
    requires IsValid(t) && t.year >= 100
    ensures IsValid(NextSecond(t)) && DateUtc(NextSecond(t)) == DateUtc(t) + 1000
  {
    hide DayFromYear, DaysBefore, DateUtc, MakeDay, NextDay, DayOf;
    UtcIs(t);
    DaysTick(t.(hour := 0, minute := 0, second := 0));
    DayNotTime(t, t.(hour := 0, minute := 0, second := 0));
    DayNotTime(t, t.(hour := t.hour + 1, minute := 0, second := 0));
    DayNotTime(t, t.(minute := t.minute + 1, second := 0));
    DayNotTime(t, t.(second := t.second + 1));
    NextDayTime(t.(hour := 0, minute := 0, second := 0));
    UtcIs(NextSecond(t));
  }

  /** A year of two digits is one of the nineteen-hundreds. */
  lemma TwoDigitYears(t: Moment)
    requires 0 <= t.year <= 99
    ensures DateUtc(t) == DateUtc(t.(year := 1900 + t.year))
  {
  }

  // ---------------------------------------------------------------- the digits

  lemma FieldsStand(y: string, mo: string, d: string, h: string, mi: string, s: string)
    requires |y| == 4 && |mo| == |d| == |h| == |mi| == |s| == 2
    ensures var t := y + mo + d + h + mi + s;
      t[..4] == y && t[4..6] == mo && t[6..8] == d && t[8..10] == h && t[10..12] == mi && t[12..14] == s
  {
  }

  /** The fourteen digits are read in order: the year's four, then two each. */
  lemma FieldsAre(y: string, mo: string, d: string, h: string, mi: string, s: string)
    requires |y| == 4 && |mo| == |d| == |h| == |mi| == |s| == 2
    requires AllDigits(y) && AllDigits(mo) && AllDigits(d) && AllDigits(h) && AllDigits(mi) && AllDigits(s)
    ensures IsTs14(y + mo + d + h + mi + s)
    ensures Fields(y + mo + d + h + mi + s) == Moment(Value(y), Value(mo), Value(d), Value(h), Value(mi), Value(s))
  {
    hide Value;
    FieldsStand(y, mo, d, h, mi, s);
  }

  /** Texts of one length compare by their fronts first. */
  lemma {:induction false} BeforeByFront(a: string, b: string, k: nat)
    requires k <= |a| == |b|
    ensures Before(a, b) <==> Before(a[..k], b[..k]) || (a[..k] == b[..k] && Before(a[k..], b[k..]))
  {
    if k == 0 {
      assert a[0..] == a && b[0..] == b;
    } else {
      BeforeByFront(a[1..], b[1..], k - 1);
      assert a[1..][..k - 1] == a[..k][1..] && b[1..][..k - 1] == b[..k][1..];
      assert a[1..][k - 1..] == a[k..] && b[1..][k - 1..] == b[k..];
      assert a[..k] == [a[0]] + a[..k][1..] && b[..k] == [b[0]] + b[..k][1..];
    }
  }

  /** Digits of one length compare as their numbers do. */
  lemma {:induction false} BeforeIsLess(a: string, b: string)
    requires |a| == |b| && AllDigits(a) && AllDigits(b)
    ensures Before(a, b) <==> Value(a) < Value(b)
    ensures Value(a) == Value(b) ==> a == b
  {
    if a != [] {
      var n := |a| - 1;
      BeforeIsLess(a[..n], b[..n]);
      BeforeByFront(a, b, n);
      assert a[n..] == [a[n]] && b[n..] == [b[n]];
      assert a == a[..n] + a[n..] && b == b[..n] + b[n..];
    }
  }

  lemma FieldsOrder(a: string, b: string)
    requires IsTs14(a) && IsTs14(b)
    ensures Before(a, b) <==> Earlier(Fields(a), Fields(b))
  {
    FieldFirst(a, b, 4);
    FieldFirst(a[4..], b[4..], 2);
    FieldFirst(a[6..], b[6..], 2);
    TimeOrder(a[8..], b[8..]);
    Slices(a);
    Slices(b);
  }

  lemma Slices(s: string)
    requires |s| == 14
    ensures s[4..][..2] == s[4..6] && s[4..][2..] == s[6..]
    ensures s[6..][..2] == s[6..8] && s[6..][2..] == s[8..]
    ensures s[8..][..2] == s[8..10] && s[8..][2..4] == s[10..12] && s[8..][4..] == s[12..14]
  {
  }

  lemma TimeOrder(a: string, b: string)
    requires |a| == |b| == 6 && AllDigits(a) && AllDigits(b)
    ensures Before(a, b) <==>
      var h, i, m, n := Value(a[..2]), Value(b[..2]), Value(a[2..4]), Value(b[2..4]);
      h < i || (h == i && (m < n || (m == n && Value(a[4..]) < Value(b[4..]))))
  {
    FieldFirst(a, b, 2);
    FieldFirst(a[2..], b[2..], 2);
    assert a[2..][..2] == a[2..4] && a[2..][2..] == a[4..];
    assert b[2..][..2] == b[2..4] && b[2..][2..] == b[4..];
    BeforeIsLess(a[4..], b[4..]);
  }

  lemma FieldFirst(a: string, b: string, k: nat)
    requires k <= |a| == |b| && AllDigits(a) && AllDigits(b)
    ensures Before(a, b) <==> Value(a[..k]) < Value(b[..k]) || (Value(a[..k]) == Value(b[..k]) && Before(a[k..], b[k..]))
  {
    BeforeByFront(a, b, k);
    BeforeIsLess(a[..k], b[..k]);
  }

  /** The epoch is strictly monotone in the fourteen digits of moments that exist, from the year 100 on. */
  lemma EpochIsMonotone(a: string, b: string)
    requires IsTs14(a) && IsTs14(b) && IsValid(Fields(a)) && IsValid(Fields(b))
    requires Fields(a).year >= 100 && Fields(b).year >= 100
    ensures Before(a, b) <==> Epoch(a) < Epoch(b)
  {
    FieldsOrder(a, b);
    UtcOrder(Fields(a), Fields(b));
  }

  /** Below the year 100 it is not: every moment of those years lies behind every one of the years from 100
      to 1899. */
  lemma CenturyTurnsOrder(a: string, b: string)
    requires IsTs14(a) && IsTs14(b) && IsValid(InCentury(Fields(a))) && IsValid(Fields(b))
    requires Fields(a).year < 100 <= Fields(b).year < 1900
    ensures Before(a, b) && Epoch(b) < Epoch(a)
  {
    FieldsOrder(a, b);
    UtcOrder(Fields(b), Fields(a));
  }
}
