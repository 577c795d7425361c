/** ngx_gmtime of ngx_times.c, against the Gregorian calendar counted year by year and month by month. */
module GmTime {

  datatype Tm = Tm(sec: nat, min: nat, hour: nat, mday: int, mon: int, year: int, wday: nat)

  // The calendar

  predicate Leap(y: int) { y % 4 == 0 && (y % 100 != 0 || y % 400 == 0) }

  function YearLength(y: int): nat { if Leap(y) then 366 else 365 }

  function MonthLength(y: int, m: int): nat
    requires 1 <= m <= 12
  {
    match m
    case 2 => if Leap(y) then 29 else 28
    case 4 => 30
    case 6 => 30
    case 9 => 30
    case 11 => 30
    case _ => 31
  }

  /** The day number of January 1 of year y; January 1, 1970 is day 0. */
  function JanuaryFirst(y: int): nat
    requires y >= 1970
  {
    if y == 1970 then 0 else JanuaryFirst(y - 1) + YearLength(y - 1)
  }

  /** The days of year y before month m; month 13 stands for the end of the year. */
  function BeforeMonth(y: int, m: int): nat
    requires 1 <= m <= 13
  {
    if m == 1 then 0 else BeforeMonth(y, m - 1) + MonthLength(y, m - 1)
  }

  predicate IsDate(y: int, m: int, d: int) {
    y >= 1970 && 1 <= m <= 12 && 1 <= d <= MonthLength(y, m)
  }

  function DayNumber(y: int, m: int, d: int): nat
    requires IsDate(y, m, d)
  {
    JanuaryFirst(y) + BeforeMonth(y, m) + d - 1
  }

  // Years counted from March

  /** The days from March 1 of year 0 to March 1 of year y. */
  function March(y: int): int { 365 * y + y / 4 - y / 100 + y / 400 }

  lemma MarchStep(y: int)
    requires y >= 1
    ensures March(y) == March(y - 1) + YearLength(y)
  {
    Multiple(y, 4);
    Multiple(y, 100);
    Multiple(y, 400);
    assert y % 400 == 0 ==> y % 100 == 0;
    assert y % 100 == 0 ==> y % 4 == 0;
  }

  lemma Multiple(y: int, k: int)
    requires k > 0
    ensures y / k - (y - 1) / k == if y % k == 0 then 1 else 0
  {
    var q, r := y / k, y % k;
    assert y == q * k + r;
    if r == 0 {
      assert y - 1 == (q - 1) * k + (k - 1);
      Quotient(y - 1, k, q - 1, k - 1);
    } else {
      Quotient(y - 1, k, q, r - 1);
    }
  }

  lemma Quotient(x: int, k: int, q: int, r: int)
    requires k > 0 && 0 <= r < k && x == q * k + r
    ensures x / k == q
  {
    var d := x / k - q;
    assert x == x / k * k + x % k;
    assert d * k == r - x % k;
    assert d >= 1 ==> d * k >= k;
    assert d <= -1 ==> d * k <= -k;
  }

  /** Four hundred times the day of March 1 is within a year's error of 146097 times the year. */
  lemma Drift(y: int)
    requires y >= 0
    ensures 146097 * y - 591 <= 400 * March(y) <= 146097 * y + 288
  {
    var q, r := y / 400, y % 400;
    var s, u := r / 100, r % 100;
    assert y == 400 * q + r && r == 100 * s + u && 0 <= s < 4;
    var v, w := u / 4, u % 4;
    assert u == 4 * v + w;
    assert y == 4 * (100 * q + 25 * s + v) + w;
    assert y / 4 == 100 * q + 25 * s + v;
    assert y == 100 * (4 * q + s) + u;
    assert y / 100 == 4 * q + s;
    assert 400 * March(y) == 146097 * y - (100 * w - 3 * u + 100 * s);
  }

  /** Gauss' formula gives the March-based year or the one after. */
  lemma Estimate(days: int)
    requires days >= 0
    ensures var year := (days + 2) * 400 / 146097;
      year >= 0 && days < March(year + 1) && (March(year) <= days || (year > 0 && March(year - 1) <= days))
  {
    var year := (days + 2) * 400 / 146097;
    assert 146097 * year <= (days + 2) * 400 < 146097 * (year + 1);
    Drift(year + 1);
    if year > 0 { Drift(year - 1); } else { Drift(0); }
  }

  /** January 1 of a year is 306 days after March 1 of the year before. */
  lemma {:induction false} JanuaryIsMarch(y: int)
    requires y >= 1970
    ensures JanuaryFirst(y) == March(y - 1) + 306 - 719468
  {
    if y == 1970 {
      assert March(1969) == 719162;
    } else {
      JanuaryIsMarch(y - 1);
      MarchStep(y - 1);
    }
  }

  lemma Months(y: int)
    ensures BeforeMonth(y, 2) == 31 && BeforeMonth(y, 3) == YearLength(y) - 306
      && BeforeMonth(y, 4) == YearLength(y) - 275
    ensures BeforeMonth(y, 5) == YearLength(y) - 245 && BeforeMonth(y, 6) == YearLength(y) - 214
      && BeforeMonth(y, 7) == YearLength(y) - 184
    ensures BeforeMonth(y, 8) == YearLength(y) - 153 && BeforeMonth(y, 9) == YearLength(y) - 122
      && BeforeMonth(y, 10) == YearLength(y) - 92
    ensures BeforeMonth(y, 11) == YearLength(y) - 61 && BeforeMonth(y, 12) == YearLength(y) - 31
      && BeforeMonth(y, 13) == YearLength(y)
  {
    assert BeforeMonth(y, 1) == 0;
    assert BeforeMonth(y, 2) == 31;
    assert BeforeMonth(y, 3) == 31 + MonthLength(y, 2);
    assert BeforeMonth(y, 4) == BeforeMonth(y, 3) + 31;
    assert BeforeMonth(y, 5) == BeforeMonth(y, 4) + 30;
    assert BeforeMonth(y, 6) == BeforeMonth(y, 5) + 31;
    assert BeforeMonth(y, 7) == BeforeMonth(y, 6) + 30;
    assert BeforeMonth(y, 8) == BeforeMonth(y, 7) + 31;
    assert BeforeMonth(y, 9) == BeforeMonth(y, 8) + 31;
    assert BeforeMonth(y, 10) == BeforeMonth(y, 9) + 30;
    assert BeforeMonth(y, 11) == BeforeMonth(y, 10) + 31;
    assert BeforeMonth(y, 12) == BeforeMonth(y, 11) + 30;
    assert BeforeMonth(y, 13) == BeforeMonth(y, 12) + 31;
  }

  /** The day of the year, counted from March, made into month and day (ngx_times.c:337-363). */
  function MonthOf(yday: int): int { (yday + 31) * 10 / 306 }

  function DayOf(yday: int): int { yday - (367 * MonthOf(yday) / 12 - 30) + 1 }

  /** A day from March to December. */
  lemma SpringOn(y: int, yday: int)
    requires 0 <= yday < 306
    ensures 1 <= MonthOf(yday) <= 10 && 1 <= DayOf(yday) <= MonthLength(y, MonthOf(yday) + 2)
    ensures BeforeMonth(y, MonthOf(yday) + 2) + DayOf(yday) - 1 == YearLength(y) - 306 + yday
  {
    Months(y);
    var m := MonthOf(yday);
    assert m == 1 || m == 2 || m == 3 || m == 4 || m == 5 || m == 6 || m == 7 || m == 8 || m == 9 || m == 10;
  }

  /** A day of January or February, which belongs to the year y that began the March before. */
  lemma NewYear(y: int, yday: int)
    requires 306 <= yday < 306 + BeforeMonth(y, 3)
    ensures 11 <= MonthOf(yday) <= 12 && 1 <= DayOf(yday) <= MonthLength(y, MonthOf(yday) - 10)
    ensures BeforeMonth(y, MonthOf(yday) - 10) + DayOf(yday) - 1 == yday - 306
  {
    Months(y);
    var m := MonthOf(yday);
    assert m == 11 || m == 12;
  }

  const WORD: int := 0x1_0000_0000_0000_0000

  /** ngx_tm_year_t is an int (ngx_time.h:35): a year loses what is above 32 bits. */
  function Int32(y: int): int {
    var r := y % 0x1_0000_0000;
    if r < 0x8000_0000 then r else r - 0x1_0000_0000
  }

  /** January 1 of year 2147483648, in seconds. */
  const END: int := 67767976233532800

  lemma EndIsYear(y: int)
    requires y == 2147483648
    ensures JanuaryFirst(y) * 86400 == END
  {
    JanuaryIsMarch(y);
    EndIsMarch(y);
  }

  lemma EndIsMarch(y: int)
    requires y == 2147483648
    ensures (March(y - 1) + 306 - 719468) * 86400 == END
  {}

  /** The date of a time. */
  ghost predicate DateOf(tm: Tm, t: int) {
    t >= 0 && IsDate(tm.year, tm.mon, tm.mday) && DayNumber(tm.year, tm.mon, tm.mday) == t / 86400
  }

  /** The years that fit are those before 2147483648. */
  lemma YearFits(y: int, m: int, d: int, n: int, last: int)
    requires IsDate(y, m, d) && n >= 0 && DayNumber(y, m, d) == n / 86400 && last == 2147483648
    ensures Int32(y) == y <==> n < END
  {
    EndIsYear(last);
    InYear(y, m, d);
    if y < last { YearsApart(y, last); } else if last < y { YearsApart(last, y); }
  }

  lemma Narrowed(y: int, m: int, d: int, y': int, n: int)
    requires IsDate(y, m, d) && n >= 0 && DayNumber(y, m, d) == n / 86400
    ensures IsDate(y', m, d) && DayNumber(y', m, d) == n / 86400 <==> y' == y
  {
    if IsDate(y', m, d) && DayNumber(y', m, d) == n / 86400 { DateUnique(y, m, d, y', m, d); }
  }

  /**
   * ngx_gmtime (ngx_times.c:282-372), for every time_t. The date is that of the time exactly for times from 0 on and
   * before year 2147483648; the time of day and the weekday are those of the time taken as unsigned.
   */
  method GmTime(t: int) returns (tm: Tm)
    requires -0x8000_0000_0000_0000 <= t < 0x8000_0000_0000_0000
    ensures DateOf(tm, t) <==> 0 <= t < END
    ensures var n := if t >= 0 then t else t + WORD;
      && tm.hour < 24 && tm.min < 60 && tm.sec < 60 && tm.hour * 3600 + tm.min * 60 + tm.sec == n % 86400
      && tm.wday == (4 + n / 86400) % 7
  {
    var unsigned: nat := if t >= 0 then t else t + WORD;
    var n := unsigned;
    var days := n / 86400;
    var wday := (4 + days) % 7;
    n := n % 86400;
    var hour := n / 3600;
    n := n % 3600;
    var min := n / 60;
    var sec := n % 60;
    var mday, mon, year := Civil(days);
    tm := Tm(sec, min, hour, mday, mon, Int32(year), wday);
    YearFits(year, mon, mday, unsigned, 2147483648);
    Narrowed(year, mon, mday, Int32(year), unsigned);
  }

  /** The March-based year and the day in it (ngx_times.c:319-327). */
  method YearOf(days: nat) returns (year: int, yday: int)
    requires days <= WORD / 86400 + 719468
    ensures year >= 0 && days == March(year) + yday && 0 <= yday < YearLength(year + 1) && days < March(year + 1)
  {
    Estimate(days);
    assert (days + 2) * 400 < WORD;
    year := (days + 2) * 400 / (365 * 400 + 100 - 4 + 1);
    yday := days - (365 * year + year / 4 - year / 100 + year / 400);
    MarchStep(year + 1);
    if yday < 0 {
      MarchStep(year);
      var leap := if year % 4 == 0 && (year % 100 != 0 || year % 400 == 0) then 1 else 0;
      yday := 365 + leap + yday;
      year := year - 1;
    }
  }

  /** The date of a day number (ngx_times.c:309-363). */
  method Civil(epoch: nat) returns (mday: int, mon: int, year: int)
    requires epoch <= WORD / 86400
    ensures IsDate(year, mon, mday) && DayNumber(year, mon, mday) == epoch
  {
    var days := epoch - (31 + 28) + 719527;
    var yday;
    year, yday := YearOf(days);
    Recent(year, days);
    mon := (yday + 31) * 10 / 306;
    mday := yday - (367 * mon / 12 - 30) + 1;
    if yday >= 306 {
      Months(year + 1);
      NewYear(year + 1, yday);
      JanuaryIsMarch(year + 1);
      year := year + 1;
      mon := mon - 10;
    } else {
      SpringOn(year, yday);
      January(year, days, yday);
      mon := mon + 2;
    }
  }

  lemma Recent(year: int, days: int)
    requires year >= 0 && 719468 <= days < March(year + 1)
    ensures year >= 1969 && (year == 1969 ==> days - March(year) >= 306)
  {
    assert March(1969) == 719162;
    if year <= 1968 { MarchMonotone(year + 1, 1969); }
  }

  lemma {:induction false} MarchMonotone(a: int, b: int)
    requires 0 <= a <= b
    ensures March(a) <= March(b)
    decreases b - a
  {
    if a < b {
      MarchStep(b);
      MarchMonotone(a, b - 1);
    }
  }

  lemma January(year: int, days: int, yday: int)
    requires year >= 1970 && days == March(year) + yday
    ensures JanuaryFirst(year) + YearLength(year) - 306 + yday == days - 719468
  {
    JanuaryIsMarch(year);
    MarchStep(year);
  }

  // No two dates have the same day number

  lemma {:induction false} YearsApart(y: int, z: int)
    requires 1970 <= y < z
    ensures JanuaryFirst(y) + YearLength(y) <= JanuaryFirst(z)
    decreases z - y
  {
    if y < z - 1 { YearsApart(y, z - 1); }
  }

  lemma {:induction false} MonthsApart(y: int, m: int, k: int)
    requires 1 <= m < k <= 13
    ensures BeforeMonth(y, m) + MonthLength(y, m) <= BeforeMonth(y, k)
    decreases k - m
  {
    if m < k - 1 { MonthsApart(y, m, k - 1); }
  }

  lemma InYear(y: int, m: int, d: int)
    requires IsDate(y, m, d)
    ensures JanuaryFirst(y) <= DayNumber(y, m, d) < JanuaryFirst(y) + YearLength(y)
  {
    MonthsApart(y, m, 13);
    Months(y);
  }

  /** The date is the only one with its day number. */
  lemma DateUnique(y: int, m: int, d: int, y': int, m': int, d': int)
    requires IsDate(y, m, d) && IsDate(y', m', d') && DayNumber(y, m, d) == DayNumber(y', m', d')
    ensures y == y' && m == m' && d == d'
  {
    InYear(y, m, d);
    InYear(y', m', d');
    if y < y' { YearsApart(y, y'); } else if y' < y { YearsApart(y', y); }
    if m < m' { MonthsApart(y, m, m'); } else if m' < m { MonthsApart(y, m', m); }
  }
}
