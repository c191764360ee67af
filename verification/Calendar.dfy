/** Localtime of src/util/time.cc: a fixed offset of eight hours, and the Gregorian date in closed
    form.  Every operation on an int32 is checked for overflow. */
module Calendar {
  newtype int32 = x: int | -0x8000_0000 <= x < 0x8000_0000

  /** tm_mon counts from 0 and tm_year from 1900. */
  datatype Tm = Tm(sec: int32, min: int32, hour: int32, mday: int32, mon: int32, year: int32)

  /** C's division truncates toward zero, and the remainder has the sign of the dividend. */
  function Truncated(x: int, y: int): int
    requires y > 0
  {
    if x >= 0 then x / y else -((-x) / y)
  }

  function Quot(x: int32, y: int32): (q: int32)
    requires y > 0
    ensures q as int == Truncated(x as int, y as int)
  {
    QuotientFits(if x >= 0 then x as int else -(x as int), y as int);
    Truncated(x as int, y as int) as int32
  }

  function Rem(x: int, y: int): (r: int)
    requires y > 0
    ensures -y < r < y && r == x - Truncated(x, y) * y
  {
    if x >= 0 then x % y else -((-x) % y)
  }

  /** static_cast<int> of a 64-bit number. */
  function Narrow(x: int): int32
  {
    ((x + 0x8000_0000) % 0x1_0000_0000 - 0x8000_0000) as int32
  }

  lemma QuotientFits(x: int, y: int)
    requires x >= 0 && y > 0
    ensures 0 <= x / y <= x
  {
    var q := x / y;
    assert q * y <= x;
    if q > x { ProductAtLeast(q, y); }
  }

  lemma ProductAtLeast(q: int, y: int)
    requires q >= 0 && y >= 1
    ensures q * y >= q
  {
  }

  // ---- the Gregorian calendar ----

  predicate Leap(year: int)
  {
    year % 4 == 0 && (year % 100 != 0 || year % 400 == 0)
  }

  function MonthDays(year: int, mon: int): int
  {
    if mon == 1 then (if Leap(year) then 29 else 28)
    else if mon == 3 || mon == 5 || mon == 8 || mon == 10 then 30
    else 31
  }

  ghost predicate Valid(tm: Tm)
  {
    && 0 <= tm.sec < 60 && 0 <= tm.min < 60 && 0 <= tm.hour < 24
    && 0 <= tm.mon < 12 && 1 <= tm.mday as int <= MonthDays(1900 + tm.year as int, tm.mon as int)
  }

  /** The days of the months before `mon`. */
  function DaysBefore(year: int, mon: nat): int
  {
    if mon == 0 then 0 else DaysBefore(year, mon - 1) + MonthDays(year, mon - 1)
  }

  /** Section 4.16, "Seconds Since the Epoch", of POSIX.1-2017 XBD, with tm_yday computed from the
      month and the day.  Before 1970, where POSIX leaves the value open, the divisions round down,
      which goes on counting days. */
  function SecondsSinceEpoch(tm: Tm): int
    requires tm.mon >= 0
  {
    var year := tm.year as int;
    var yday := DaysBefore(1900 + year, tm.mon as nat) + tm.mday as int - 1;
    tm.sec as int + tm.min as int * 60 + tm.hour as int * 3600 + yday * 86400 +
    (year - 70) * 31536000 + ((year - 69) / 4) * 86400 -
    ((year - 1) / 100) * 86400 + ((year + 299) / 400) * 86400
  }

  // ---- a date is determined by its seconds ----

  function YearStart(year: int): int
  {
    (year - 70) * 365 + (year - 69) / 4 - (year - 1) / 100 + (year + 299) / 400
  }

  function YearDays(year: int): int { if Leap(1900 + year) then 366 else 365 }

  lemma YearStep(year: int)
    ensures YearStart(year + 1) == YearStart(year) + YearDays(year)
  {
    assert (year - 68) / 4 == (year - 69) / 4 + if (1900 + year) % 4 == 0 then 1 else 0;
    assert year / 100 == (year - 1) / 100 + if (1900 + year) % 100 == 0 then 1 else 0;
    assert (year + 300) / 400 == (year + 299) / 400 + if (1900 + year) % 400 == 0 then 1 else 0;
    Nested(year);
  }

  lemma Nested(year: int)
    ensures (1900 + year) % 100 == 0 ==> (1900 + year) % 4 == 0
    ensures (1900 + year) % 400 == 0 ==> (1900 + year) % 100 == 0
  {
  }

  lemma {:induction false} YearsApart(x: int, y: int)
    requires x < y
    ensures YearStart(x) + YearDays(x) <= YearStart(y)
    decreases y - x
  {
    hide YearStart;
    YearStep(x);
    if x + 1 < y { YearsApart(x + 1, y); }
  }

  /** The day of the year, from 0. */
  function YearDay(tm: Tm): int
    requires tm.mon >= 0
  {
    DaysBefore(1900 + tm.year as int, tm.mon as nat) + tm.mday as int - 1
  }

  lemma MonthStarts(year: int)
    ensures var f := if Leap(year) then 1 else 0;
            && DaysBefore(year, 0) == 0 && DaysBefore(year, 1) == 31 && DaysBefore(year, 2) == 59 + f && DaysBefore(year, 3) == 90 + f
            && DaysBefore(year, 4) == 120 + f && DaysBefore(year, 5) == 151 + f && DaysBefore(year, 6) == 181 + f
            && DaysBefore(year, 7) == 212 + f && DaysBefore(year, 8) == 243 + f && DaysBefore(year, 9) == 273 + f
            && DaysBefore(year, 10) == 304 + f && DaysBefore(year, 11) == 334 + f
  {
    assert DaysBefore(year, 1) == 31;
    assert DaysBefore(year, 2) == 31 + MonthDays(year, 1);
    assert DaysBefore(year, 4) == DaysBefore(year, 2) + 61;
    assert DaysBefore(year, 6) == DaysBefore(year, 4) + 61;
    assert DaysBefore(year, 8) == DaysBefore(year, 6) + 62;
    assert DaysBefore(year, 10) == DaysBefore(year, 8) + 61;
  }

  lemma YearDayRange(tm: Tm)
    requires Valid(tm)
    ensures 0 <= YearDay(tm) < YearDays(tm.year as int)
  {
    hide DaysBefore;
    MonthStarts(1900 + tm.year as int);
  }

  lemma SameYearDay(x: Tm, y: Tm)
    requires Valid(x) && Valid(y) && x.year == y.year && YearDay(x) == YearDay(y)
    ensures x.mon == y.mon && x.mday == y.mday
  {
    if x.mon < y.mon { MonthsApart(x, y); }
    if y.mon < x.mon { MonthsApart(y, x); }
  }

  lemma MonthsApart(x: Tm, y: Tm)
    requires Valid(x) && Valid(y) && x.year == y.year && x.mon < y.mon
    ensures YearDay(x) < YearDay(y)
  {
    MonthEnds(1900 + x.year as int, x.mon as nat, y.mon as nat);
  }

  lemma {:induction false} MonthEnds(year: int, x: nat, y: nat)
    requires x < y
    ensures DaysBefore(year, x) + MonthDays(year, x) <= DaysBefore(year, y)
    decreases y
  {
    if x < y - 1 { MonthEnds(year, x, y - 1); }
  }

  lemma Parts(tm: Tm)
    requires Valid(tm)
    ensures var days := YearDay(tm) + YearStart(tm.year as int);
            var rest := tm.sec as int + tm.min as int * 60 + tm.hour as int * 3600;
            SecondsSinceEpoch(tm) == days * 86400 + rest && 0 <= rest < 86400
  {
    hide DaysBefore;
  }

  /** No two valid dates have the same seconds: Localtime's result is the only one. */
  lemma OnlyDate(x: Tm, y: Tm)
    requires Valid(x) && Valid(y) && SecondsSinceEpoch(x) == SecondsSinceEpoch(y)
    ensures x == y
  {
    hide YearStart, YearDays, YearDay, SecondsSinceEpoch;
    Parts(x);
    Parts(y);
    YearDayRange(x);
    YearDayRange(y);
    if x.year < y.year { YearsApart(x.year as int, y.year as int); }
    if y.year < x.year { YearsApart(y.year as int, x.year as int); }
    SameYearDay(x, y);
  }

  lemma Since1970(tm: Tm)
    requires Valid(tm) && SecondsSinceEpoch(tm) >= 0
    ensures tm.year >= 70
  {
    hide YearDay, SecondsSinceEpoch;
    Parts(tm);
    YearDayRange(tm);
    if tm.year < 70 { YearsApart(tm.year as int, 70); }
  }

  // ---- the closed form, in whole numbers ----

  /** b counts centuries of 146097 / 4 days. */
  lemma CenturyPart(a: int, b: int, c: int)
    requires a >= 0 && b == (4 * a + 3) / 146097 && c == a - b * 146097 / 4
    ensures 0 <= c <= 36524 && (c == 36524 ==> b % 4 == 3)
  {
  }

  /** d counts years from March on; the 366th day is the 29th of February of a leap year. */
  lemma YearPart(b: int, c: int, d: int, e: int)
    requires 0 <= c <= 36524 && (c == 36524 ==> b % 4 == 3)
    requires d == (4 * c + 3) / 1461 && e == c - d * 1461 / 4
    ensures 0 <= d <= 99 && 0 <= e <= 365
    ensures e == 365 ==> Leap(100 * b + d + 1)
  {
  }

  /** m counts months from March on. */
  lemma MonthPart(year: int, e: int, m: int, mday: int, mon: int)
    requires 0 <= e <= 365 && m == (5 * e + 2) / 153 && mday == e - (153 * m + 2) / 5 + 1
    requires mon == m + 2 - 12 * (m / 10) && (e == 365 ==> Leap(year))
    ensures 0 <= m <= 11 && 0 <= mon < 12 && 1 <= mday <= MonthDays(year, mon)
    ensures DaysBefore(year, mon) + mday - 1 == if m < 10 then e + (if Leap(year) then 60 else 59) else e - 306
  {
    MonthStarts(year);
  }

  /** Putting the parts together gives back the day. */
  lemma PartsAddUp(days: int, b: int, d: int, e: int, k: int, year: int, yday: int)
    requires days + 2472632 == b * 146097 / 4 + d * 1461 / 4 + e && 0 <= d <= 99
    requires 0 <= k <= 1 && year == b * 100 + d - 6700 + k
    requires yday == if k == 0 then e + (if Leap(1900 + year) then 60 else 59) else e - 306
    ensures yday + (year - 70) * 365 + (year - 69) / 4 - (year - 1) / 100 + (year + 299) / 400 == days
  {
    var n := d + k;
    assert b * 146097 / 4 == 36524 * b + b / 4;
    assert d * 1461 / 4 == 365 * d + d / 4;
    assert (year - 69) / 4 == 25 * b + (n - 6769) / 4;
    assert (year - 1) / 100 == b + (n - 6701) / 100;
    assert (year + 299) / 400 == (100 * b + n - 6401) / 400;
    LeapYears(b, n, year);
  }

  lemma LeapYears(b: int, n: int, year: int)
    requires 0 <= n <= 100 && year == b * 100 + n - 6700
    ensures Leap(1900 + year) <==> n % 4 == 0 && (0 < n < 100 || (n == 0 && b % 4 == 0) || (n == 100 && b % 4 == 3))
    ensures (year + 299) / 400 == b / 4 - 16 - if n == 0 && b % 4 == 0 then 1 else 0
  {
    var q, m := b / 4, 100 * (b % 4) + n;
    assert 1900 + year == 400 * (q - 12) + m;
    Cycle(q - 12, m);
    FourHundred(m);
    assert year + 299 == 400 * (q - 17) + (m + 399);
    assert (year + 299) / 400 == q - 17 + (m + 399) / 400;
  }

  lemma FourHundred(m: int)
    requires 0 <= m <= 400
    ensures m % 400 == 0 <==> m == 0 || m == 400
    ensures m % 100 == 0 <==> m == 0 || m == 100 || m == 200 || m == 300 || m == 400
  {
  }

  lemma DateCorrect(days: int, b: int, c: int, d: int, e: int, m: int, mday: int, mon: int, year: int)
    requires days + 2472632 >= 0 && b == (4 * (days + 2472632) + 3) / 146097 && c == days + 2472632 - b * 146097 / 4
    requires d == (4 * c + 3) / 1461 && e == c - d * 1461 / 4
    requires m == (5 * e + 2) / 153 && mday == e - (153 * m + 2) / 5 + 1
    requires mon == m + 2 - 12 * (m / 10) && year == b * 100 + d - 6700 + m / 10
    ensures 0 <= mon < 12 && 1 <= mday <= MonthDays(1900 + year, mon) && 0 <= m <= 11
    ensures DaysBefore(1900 + year, mon) + mday - 1 + (year - 70) * 365 + (year - 69) / 4 - (year - 1) / 100 + (year + 299) / 400 == days
  {
    hide DaysBefore;
    CenturyPart(days + 2472632, b, c);
    YearPart(b, c, d, e);
    LeapShift(100 * b + d + 1);
    MonthRange(e, m);
    if e == 365 { LastDay(e, m, mday); }
    MonthPart(1900 + year, e, m, mday, mon);
    PartsAddUp(days, b, d, e, m / 10, year, DaysBefore(1900 + year, mon) + mday - 1);
  }

  lemma LeapShift(year: int)
    ensures Leap(year - 4800) <==> Leap(year)
  {
    Cycle(-12, year);
  }

  lemma Cycle(k: int, x: int)
    ensures (400 * k + x) % 4 == x % 4 && (400 * k + x) % 100 == x % 100 && (400 * k + x) % 400 == x % 400
  {
    Cycle4(k, x);
    Cycle100(k, x);
    Cycle400(k, x);
  }

  lemma Cycle4(k: int, x: int)
    ensures (400 * k + x) % 4 == x % 4
  {
    Mod4(100 * k + x / 4, x % 4);
  }

  lemma Mod4(t: int, r: int)
    requires 0 <= r < 4
    ensures (4 * t + r) % 4 == r
  {
  }

  lemma Cycle100(k: int, x: int)
    ensures (400 * k + x) % 100 == x % 100
  {
  }

  lemma Cycle400(k: int, x: int)
    ensures (400 * k + x) % 400 == x % 400
  {
  }

  lemma LastDay(e: int, m: int, mday: int)
    requires e == 365 && m == (5 * e + 2) / 153
    ensures m == 11
  {
  }

  /** The times of day that the code can express: all from 1970 on, whole hours from eight hours
      before, and local midnights. */
  predicate Tellable(t: int)
  {
    t >= 0 || (t % 3600 == 0 && (t >= -8 * 3600 || (t + 8 * 3600) % 86400 == 0))
  }

  lemma SecondsOf(tm: Tm, days: int, t: int)
    requires tm.mon >= 0
    requires tm.sec as int + tm.min as int * 60 + tm.hour as int * 3600 + days * 86400 == t
    requires var year := tm.year as int;
             DaysBefore(1900 + year, tm.mon as nat) + tm.mday as int - 1
             + (year - 70) * 365 + (year - 69) / 4 - (year - 1) / 100 + (year + 299) / 400 == days
    ensures SecondsSinceEpoch(tm) == t
  {
    hide DaysBefore;
  }

  lemma CenturyRange(a: int, b: int)
    requires 0 <= a < 4_200_000 && b == (4 * a + 3) / 146097
    ensures 0 <= b < 120 && 0 <= b * 146097 / 4 <= a + 1
  {
  }

  lemma MonthRange(e: int, m: int)
    requires 0 <= e <= 365 && m == (5 * e + 2) / 153
    ensures 0 <= m <= 11 && 0 <= (153 * m + 2) / 5 <= e && 0 <= m / 10 <= 1
  {
  }

  // ---- the code ----

  /** For every time: the fields are a valid date with the right seconds if and only if the time in
      minutes fits an int and the time of day can be told with remainders that are not negative;
      then it is the only such date. */
  method Localtime(unixSec: int) returns (result: Tm)
    ensures Valid(result) && SecondsSinceEpoch(result) == unixSec + 8 * 3600 <==>
              -0x8000_0000 <= Truncated(unixSec, 60) < 0x8000_0000 && Tellable(unixSec)
    ensures 0 <= unixSec < 0x8000_0000 * 60 ==> Valid(result) && result.year >= 70
    ensures Valid(result) ==> forall tm :: Valid(tm) && SecondsSinceEpoch(tm) == SecondsSinceEpoch(result) ==> tm == result
  {
    hide DaysBefore, Leap, MonthDays, SecondsSinceEpoch, Quot, Rem, Truncated, Tellable, Narrow;
    var sec := Rem(unixSec, 60) as int32;
    var i := Narrow(Truncated(unixSec, 60));
    ghost var minutes := i as int;
    var min := Rem(i as int, 60) as int32;
    i := Quot(i, 60);
    Hours(minutes, i as int);
    var hour := Rem(i as int + 8, 24) as int32;
    var mday := Quot(i + 8, 24);
    ghost var days := mday as int;
    ClockShows(unixSec, minutes, i as int);
    NarrowKeeps(Truncated(unixSec, 60));
    ClockTells(unixSec, Truncated(unixSec, 60), Truncated(Truncated(unixSec, 60), 60));
    var mon, year;
    mday, mon, year := Date(mday);
    result := Tm(sec, min, hour, mday, mon, year);
    SecondsOf(result, days, sec as int + min as int * 60 + hour as int * 3600 + days * 86400);
    if 0 <= unixSec < 0x8000_0000 * 60 { Since1970(result); }
    forall tm | Valid(result) && Valid(tm) && SecondsSinceEpoch(tm) == SecondsSinceEpoch(result) ensures tm == result {
      OnlyDate(tm, result);
    }
  }

  lemma Hours(minutes: int, hours: int)
    requires -0x8000_0000 <= minutes < 0x8000_0000 && hours == Truncated(minutes, 60)
    ensures -35_791_395 < hours < 35_791_395 && -1_491_309 <= Truncated(hours + 8, 24) < 1_491_309
  {
  }

  /** The clock shows the time exactly if the minutes were not cut off. */
  lemma ClockShows(t: int, minutes: int, h: int)
    requires minutes == Narrow(Truncated(t, 60)) as int && h == Truncated(minutes, 60)
    ensures var shown := Rem(t, 60) + Rem(minutes, 60) * 60 + Rem(h + 8, 24) * 3600 + Truncated(h + 8, 24) * 86400;
            shown == t + 8 * 3600 <==> -0x8000_0000 <= Truncated(t, 60) < 0x8000_0000
  {
  }

  lemma NarrowKeeps(x: int)
    ensures Narrow(x) as int == x <==> -0x8000_0000 <= x < 0x8000_0000
  {
  }

  lemma ClockTells(t: int, minutes: int, h: int)
    requires minutes == Truncated(t, 60) && h == Truncated(minutes, 60)
    ensures Rem(t, 60) >= 0 && Rem(minutes, 60) >= 0 && Rem(h + 8, 24) >= 0 <==> Tellable(t)
    ensures 0 <= t < 0x8000_0000 * 60 ==> 0 <= Truncated(t, 60) < 0x8000_0000 && Tellable(t)
  {
  }

  /** Localtime from `a` on. */
  method Date(days: int32) returns (mday: int32, mon: int32, year: int32)
    requires -1_600_000 < days < 1_600_000
    ensures 0 <= mon < 12 && 1 <= mday as int <= MonthDays(1900 + year as int, mon as int)
    ensures var y := year as int;
            DaysBefore(1900 + y, mon as nat) + mday as int - 1
            + (y - 70) * 365 + (y - 69) / 4 - (y - 1) / 100 + (y + 299) / 400 == days as int
  {
    hide DaysBefore, Leap, MonthDays, Quot;
    var a := days + 2472632;
    var b := Quot(a * 4 + 3, 146097);
    CenturyRange(a as int, b as int);
    var c := Quot(-b * 146097, 4) + a;
    CenturyPart(a as int, b as int, c as int);
    var d := Quot(c * 4 + 3, 1461);
    var e := -d * 1461;
    e := Quot(e, 4) + c;
    YearPart(b as int, c as int, d as int, e as int);
    var m := Quot(5 * e + 2, 153);
    MonthRange(e as int, m as int);
    mday := Quot(-(153 * m + 2), 5) + e + 1;
    mon := Quot(-m, 10) * 12 + m + 2;
    year := b * 100 + d - 6700 + Quot(m, 10);
    DateCorrect(days as int, b as int, c as int, d as int, e as int, m as int, mday as int, mon as int, year as int);
  }
}
