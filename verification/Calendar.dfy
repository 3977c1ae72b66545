/** Civil date and time from a Unix second count, with the widths of the original. */
module Calendar {

  const POW32: int := 0x1_0000_0000
  const POW64: int := 0x1_0000_0000_0000_0000

  type U32 = x: int | 0 <= x < 0x1_0000_0000
  type U64 = x: int | 0 <= x < 0x1_0000_0000_0000_0000
  type I64 = x: int | -0x8000_0000_0000_0000 <= x < 0x8000_0000_0000_0000

  // ---------- The Gregorian calendar, counted year by year and month by month ----------

  predicate IsLeap(y: int) {
    y % 4 == 0 && (y % 100 != 0 || y % 400 == 0)
  }

  function YearLength(y: int): int {
    if IsLeap(y) then 366 else 365
  }

  function MonthLength(y: int, m: int): int
    requires 1 <= m <= 12
  {
    if m == 2 then (if IsLeap(y) then 29 else 28)
    else if m == 4 || m == 6 || m == 9 || m == 11 then 30
    else 31
  }

  /** Days from 1970-01-01 to January 1 of year y. */
  function DaysBeforeYear(y: int): int
    requires y >= 1970
    decreases y
  {
    if y == 1970 then 0 else DaysBeforeYear(y - 1) + YearLength(y - 1)
  }

  function DaysBeforeMonth(y: int, m: int): int
    requires 1 <= m <= 12
    decreases m
  {
    if m == 1 then 0 else DaysBeforeMonth(y, m - 1) + MonthLength(y, m - 1)
  }

  predicate ValidDate(y: int, m: int, d: int) {
    y >= 1970 && 1 <= m <= 12 && 1 <= d <= MonthLength(y, m)
  }

  function DayNumber(y: int, m: int, d: int): int
    requires ValidDate(y, m, d)
  {
    DaysBeforeYear(y) + DaysBeforeMonth(y, m) + d - 1
  }

  datatype DateTime = DateTime(year: int, month: int, day: int, hour: int, minute: int, second: int)

  predicate Valid(t: DateTime) {
    && ValidDate(t.year, t.month, t.day)
    && 0 <= t.hour < 24 && 0 <= t.minute < 60 && 0 <= t.second < 60
  }

  function Seconds(t: DateTime): int
    requires Valid(t)
  {
    86400 * DayNumber(t.year, t.month, t.day) + 3600 * t.hour + 60 * t.minute + t.second
  }

  predicate DateBefore(y: int, m: int, d: int, y': int, m': int, d': int) {
    y < y' || (y == y' && (m < m' || (m == m' && d < d')))
  }

  /** Lexicographic order on the six fields. */
  predicate Before(a: DateTime, b: DateTime) {
    || DateBefore(a.year, a.month, a.day, b.year, b.month, b.day)
    || (a.year == b.year && a.month == b.month && a.day == b.day &&
        DateBefore(a.hour, a.minute, a.second, b.hour, b.minute, b.second))
  }

  // ---------- The conversion of the original ----------

  /** Days from March 1 of year 0 of an era to March 1 of its year k. */
  function EraYearStart(k: int): int {
    365 * k + k / 4 - k / 100
  }

  /** Every intermediate value stays within 32 bits. */
  function YearOfEra(doe: U32): int
    requires doe <= 146096
  {
    var a: U32 := doe - doe / 1460;
    var b: U32 := a + doe / 36524;
    var c: U32 := b - doe / 146096;
    c / 365
  }

  /** Month and day of day `doy` of the year that starts on March 1 of year y. */
  function MarchDate(y: I64, doy: U32): (int, int, int)
    requires y < 0x7fff_ffff_ffff_ffff && doy <= 365
  {
    var mp: U32 := (5 * doy + 2) / 153;
    var before: U32 := doy - (153 * mp + 2) / 5;
    var day: U32 := before + 1;
    var month: U32 := if mp < 10 then mp + 3 else mp - 9;
    var year: I64 := if month <= 2 then y + 1 else y;
    (year, month, day)
  }

  /** The March-based year of a day number and the day within it. */
  function MarchYear(days: int): (r: (int, int))
    requires 0 <= days <= POW64 / 86400
    ensures -1 <= r.0 < 0x7fff_ffff_ffff_ffff && 0 <= r.1 <= 365
  {
    var z: I64 := days + 719468;
    var era: I64 := z / 146097;
    var doe: U32 := z - era * 146097;
    YearOfEraBounds(doe);
    var yoe: U32 := YearOfEra(doe);
    var y: I64 := yoe + era * 400;
    var start: U32 := EraYearStart(yoe);
    var doy: U32 := doe - start;
    (y, doy)
  }

  function CivilFromDays(days: int): (int, int, int)
    requires 0 <= days <= POW64 / 86400
  {
    var (y, doy) := MarchYear(days);
    MarchDate(y, doy)
  }

  function WithFullYear(secs: U64): DateTime {
    var rem: U32 := secs % 86400;
    var (year, month, day) := CivilFromDays(secs / 86400);
    DateTime(year, month, day, rem / 3600, (rem % 3600) / 60, rem % 60)
  }

  /** The year is cut to 32 bits by the final cast. */
  function UnixToYmdhms(secs: U64): DateTime {
    var t := WithFullYear(secs);
    t.(year := t.year % POW32)
  }

  // ---------- Proofs ----------

  /** A day of an era, split into century, four-year cycle, year and day. */
  lemma YearOfEraSplit(doe: int, c: int, q: int, y: int, d: int)
    requires 0 <= c <= 3 && 0 <= q <= 24 && 0 <= y <= 3 && 0 <= d
    requires if y < 3 then d < 365 else d <= 365
    requires q == 24 && y == 3 && c < 3 ==> d < 365
    requires doe == 36524 * c + 1461 * q + 365 * y + d <= 146096
    ensures YearOfEra(doe) == 100 * c + 4 * q + y
  {
    CenturyDays(doe, c, 1461 * q + 365 * y + d);
    CycleDays(doe, c, q, 365 * y + d);
    YearFromQuotients(doe, c, q, y, d, doe / 1460, doe / 36524, doe / 146096);
  }

  lemma YearFromQuotients(doe: int, c: int, q: int, y: int, d: int, cycles: int, centuries: int, eras: int)
    requires 0 <= c <= 3 && 0 <= q <= 24 && 0 <= y <= 3 && 0 <= d
    requires if y < 3 then d < 365 else d <= 365
    requires q == 24 && y == 3 && c < 3 ==> d < 365
    requires doe == 36524 * c + 1461 * q + 365 * y + d && centuries - eras == c
    requires cycles == 25 * c + q + (if 24 * c + q + 365 * y + d >= 1460 then 1 else 0)
    ensures (doe - cycles + centuries - eras) / 365 == 100 * c + 4 * q + y
  {
    var carry := if 24 * c + q + 365 * y + d >= 1460 then 1 else 0;
    assert doe - cycles + centuries - eras == 365 * (100 * c + 4 * q + y) + (d - carry);
  }

  lemma CenturyDays(doe: int, c: int, r: int)
    requires 0 <= c <= 3 && 0 <= r <= 36524 && (c < 3 ==> r < 36524) && doe == 36524 * c + r
    ensures doe / 36524 - doe / 146096 == c
  {
  }

  lemma CycleDays(doe: int, c: int, q: int, r: int)
    requires 0 <= c <= 3 && 0 <= q <= 24 && 0 <= r <= 1460 && doe == 36524 * c + 1461 * q + r
    ensures doe / 1460 == 25 * c + q + (if 24 * c + q + r >= 1460 then 1 else 0)
  {
  }

  lemma EraYearStartSplit(c: int, q: int, y: int)
    requires 0 <= q <= 24 && 0 <= y <= 3
    ensures EraYearStart(100 * c + 4 * q + y) == 36524 * c + 1461 * q + 365 * y
  {
    var k := 100 * c + 4 * q + y;
    assert k / 4 == 25 * c + q;
    assert k / 100 == c;
  }

  lemma YearOfEraBounds(doe: int)
    requires 0 <= doe <= 146096
    ensures 0 <= YearOfEra(doe) <= 399
    ensures EraYearStart(YearOfEra(doe)) <= doe
    ensures doe <= EraYearStart(YearOfEra(doe)) + 364
            || (doe == EraYearStart(YearOfEra(doe)) + 365 && IsLeap(YearOfEra(doe) + 1))
  {
    var c := if doe == 146096 then 3 else doe / 36524;
    var q := (doe - 36524 * c) / 1461;
    var r := doe - 36524 * c - 1461 * q;
    var y := if r == 1460 then 3 else r / 365;
    var d := r - 365 * y;
    YearOfEraSplit(doe, c, q, y, d);
    EraYearStartSplit(c, q, y);
    if d == 365 {
      CycleEndsLeap(c, q);
    }
  }

  lemma CycleEndsLeap(c: int, q: int)
    requires 0 <= c <= 3 && 0 <= q <= 24 && (q < 24 || c == 3)
    ensures IsLeap(100 * c + 4 * q + 4)
  {
    Mod4(0, 25 * c + q + 1);
    Mod100(4 * q + 4, c);
  }

  /** Days from March 1 of year 0 to March 1 of year y. */
  function MarchDays(y: int): int {
    365 * y + y / 4 - y / 100 + y / 400
  }

  lemma MarchDaysStep(y: int)
    ensures MarchDays(y) == MarchDays(y - 1) + YearLength(y)
  {
    assert y / 4 == (y - 1) / 4 + (if y % 4 == 0 then 1 else 0);
    assert y / 100 == (y - 1) / 100 + (if y % 100 == 0 then 1 else 0);
    assert y / 400 == (y - 1) / 400 + (if y % 400 == 0 then 1 else 0);
    Multiples(y);
  }

  lemma Multiples(y: int)
    ensures y % 400 == 0 ==> y % 100 == 0
    ensures y % 100 == 0 ==> y % 4 == 0
  {
    Mod100(y % 400, 4 * (y / 400));
    Mod4(y % 100, 25 * (y / 100));
    assert y == y % 400 + 100 * (4 * (y / 400)) == y % 100 + 4 * (25 * (y / 100));
  }

  /** The recursive count of days against the March-based closed form. */
  lemma {:induction false} DaysBeforeYearClosed(y: int)
    requires y >= 1970
    ensures DaysBeforeYear(y) + 719468 == MarchDays(y - 1) + 306
    decreases y
  {
    if y > 1970 {
      DaysBeforeYearClosed(y - 1);
      MarchDaysStep(y - 1);
    }
  }

  lemma DaysBeforeMonthClosed(y: int, m: int)
    requires 1 <= m <= 12
    ensures DaysBeforeMonth(y, m)
         == if m <= 2 then 31 * (m - 1)
            else 59 + (if IsLeap(y) then 1 else 0) + (153 * (m - 3) + 2) / 5
  {
    if m > 1 { DaysBeforeMonthClosed(y, m - 1); }
  }

  lemma EraMarchDays(era: int, yoe: int)
    requires 0 <= yoe <= 399
    ensures MarchDays(yoe + 400 * era) == 146097 * era + EraYearStart(yoe)
  {
    var y := yoe + 400 * era;
    assert y / 4 == yoe / 4 + 100 * era;
    assert y / 100 == yoe / 100 + 4 * era;
    assert y / 400 == era;
  }

  lemma EraLeap(era: int, k: int)
    ensures IsLeap(k + 400 * era) == IsLeap(k)
  {
    Mod4(k, 100 * era);
    Mod100(k, 4 * era);
    Mod400(k, era);
  }

  lemma Mod4(k: int, t: int)
    ensures (k + 4 * t) % 4 == k % 4
  {
    assert k + 4 * t == 4 * (k / 4 + t) + k % 4;
  }

  lemma Mod100(k: int, t: int)
    ensures (k + 100 * t) % 100 == k % 100
  {
    assert k + 100 * t == 100 * (k / 100 + t) + k % 100;
  }

  lemma Mod400(k: int, t: int)
    ensures (k + 400 * t) % 400 == k % 400
  {
    assert k + 400 * t == 400 * (k / 400 + t) + k % 400;
  }

  /** Day `doy` of the year that starts on March 1 of year y, as month and day. */
  lemma MarchMonth(y: int, doy: int)
    requires 0 <= doy <= 364 || (doy == 365 && IsLeap(y + 1))
    ensures var mp := (5 * doy + 2) / 153;
            var day := doy - (153 * mp + 2) / 5 + 1;
            && 0 <= mp <= 11
            && (mp < 10 ==> 1 <= day <= MonthLength(y, mp + 3))
            && (mp >= 10 ==> 1 <= day <= MonthLength(y + 1, mp - 9))
  {
    var mp := (5 * doy + 2) / 153;
    assert 0 <= mp <= 11;
    assert mp == 0 || mp == 1 || mp == 2 || mp == 3 || mp == 4 || mp == 5
           || mp == 6 || mp == 7 || mp == 8 || mp == 9 || mp == 10 || mp == 11;
  }

  lemma YearAtLeast1970(y: int, doy: int)
    requires 0 <= doy <= 365 && MarchDays(y) + doy >= 719468
    ensures y >= 1969
    ensures y == 1969 ==> (5 * doy + 2) / 153 >= 10
  {
  }

  lemma MarchDateNumber(y: I64, doy: U32)
    requires y < 0x7fff_ffff_ffff_ffff
    requires 0 <= doy <= 364 || (doy == 365 && IsLeap(y + 1))
    requires MarchDays(y) + doy >= 719468
    ensures var (y', m, d) := MarchDate(y, doy);
            ValidDate(y', m, d) && DayNumber(y', m, d) == MarchDays(y) + doy - 719468
  {
    MarchMonth(y, doy);
    YearAtLeast1970(y, doy);
    var (y', m, d) := MarchDate(y, doy);
    DaysBeforeYearClosed(y');
    DaysBeforeMonthClosed(y', m);
    if m > 2 {
      MarchDaysStep(y);
    }
  }

  lemma MarchYearCorrect(days: int)
    requires 0 <= days <= POW64 / 86400
    ensures var (y, doy) := MarchYear(days);
            && MarchDays(y) + doy == days + 719468
            && (doy == 365 ==> IsLeap(y + 1))
  {
    var z := days + 719468;
    var era := z / 146097;
    var doe := z - era * 146097;
    YearOfEraBounds(doe);
    EraMarchDays(era, YearOfEra(doe));
    EraLeap(era, YearOfEra(doe) + 1);
  }

  /** The conversion yields a valid date, and it is the one with that day number. */
  lemma CivilFromDaysCorrect(days: int)
    requires 0 <= days <= POW64 / 86400
    ensures var (y, m, d) := CivilFromDays(days);
            ValidDate(y, m, d) && DayNumber(y, m, d) == days
  {
    MarchYearCorrect(days);
    var (y, doy) := MarchYear(days);
    MarchDateNumber(y, doy);
  }

  // ---------- Uniqueness and order ----------

  lemma {:induction false} DaysBeforeYearMonotone(y: int, y': int)
    requires 1970 <= y < y'
    ensures DaysBeforeYear(y) + YearLength(y) <= DaysBeforeYear(y')
    decreases y'
  {
    if y < y' - 1 {
      DaysBeforeYearMonotone(y, y' - 1);
    }
  }

  lemma {:induction false} DaysBeforeMonthMonotone(y: int, m: int, m': int)
    requires 1 <= m < m' <= 12
    ensures DaysBeforeMonth(y, m) + MonthLength(y, m) <= DaysBeforeMonth(y, m')
    decreases m'
  {
    if m < m' - 1 {
      DaysBeforeMonthMonotone(y, m, m' - 1);
    }
  }

  lemma DayOfYearBound(y: int, m: int, d: int)
    requires ValidDate(y, m, d)
    ensures 0 <= DaysBeforeMonth(y, m) + d - 1 < YearLength(y)
  {
    DaysBeforeMonthClosed(y, m);
  }

  lemma DayNumberMonotone(y: int, m: int, d: int, y': int, m': int, d': int)
    requires ValidDate(y, m, d) && ValidDate(y', m', d')
    requires DateBefore(y, m, d, y', m', d')
    ensures DayNumber(y, m, d) < DayNumber(y', m', d')
  {
    if y < y' {
      DayOfYearBound(y, m, d);
      DayOfYearBound(y', m', d');
      DaysBeforeYearMonotone(y, y');
    } else if m < m' {
      DaysBeforeMonthMonotone(y, m, m');
    }
  }

  lemma SecondsMonotone(a: DateTime, b: DateTime)
    requires Valid(a) && Valid(b) && Before(a, b)
    ensures Seconds(a) < Seconds(b)
  {
    if DateBefore(a.year, a.month, a.day, b.year, b.month, b.day) {
      DayNumberMonotone(a.year, a.month, a.day, b.year, b.month, b.day);
    }
  }

  /** Two valid date-times with the same second count are the same. */
  lemma SecondsInjective(a: DateTime, b: DateTime)
    requires Valid(a) && Valid(b) && Seconds(a) == Seconds(b)
    ensures a == b
  {
    if Before(a, b) {
      SecondsMonotone(a, b);
    } else if Before(b, a) {
      SecondsMonotone(b, a);
    }
  }

  // ---------- Main results ----------

  /** First second of year 2^32, the first the 32-bit year cannot name. */
  function FirstUnrepresentable(): int {
    86400 * DaysBeforeYear(POW32)
  }

  /** It is a 64-bit second, so there are seconds that the result does not name. */
  lemma FirstUnrepresentableExists()
    ensures 0 <= FirstUnrepresentable() < POW64
    ensures !(Valid(UnixToYmdhms(FirstUnrepresentable()))
              && Seconds(UnixToYmdhms(FirstUnrepresentable())) == FirstUnrepresentable())
  {
    DaysBeforeYearClosed(POW32);
    UnixToYmdhmsCorrect(FirstUnrepresentable());
  }

  /**
   * The result is a valid date-time for that second, the only one there is,
   * exactly for the seconds whose year fits 32 bits.
   */
  lemma UnixToYmdhmsCorrect(secs: U64)
    ensures (Valid(UnixToYmdhms(secs)) && Seconds(UnixToYmdhms(secs)) == secs) <==> secs < FirstUnrepresentable()
    ensures forall t :: Valid(t) && Seconds(t) == secs && t.year < POW32 ==> t == UnixToYmdhms(secs)
  {
    WithFullYearCorrect(secs);
    TruncatedYear(WithFullYear(secs), secs);
  }

  lemma TruncatedYear(full: DateTime, secs: int)
    requires Valid(full) && Seconds(full) == secs
    ensures var r := full.(year := full.year % POW32);
            && ((Valid(r) && Seconds(r) == secs) <==> secs < FirstUnrepresentable())
            && forall t :: Valid(t) && Seconds(t) == secs && t.year < POW32 ==> t == r
  {
    var r := full.(year := full.year % POW32);
    YearFits(full);
    if Valid(r) && Seconds(r) == secs {
      YearFits(r);
    }
    forall t | Valid(t) && Seconds(t) == secs && t.year < POW32
      ensures t == r
    {
      SecondsInjective(t, full);
    }
  }

  lemma WithFullYearCorrect(secs: U64)
    ensures Valid(WithFullYear(secs)) && Seconds(WithFullYear(secs)) == secs
  {
    CivilFromDaysCorrect(secs / 86400);
    TimeOfDay(secs % 86400);
    var (y, m, d) := CivilFromDays(secs / 86400);
  }

  lemma TimeOfDay(rem: int)
    requires 0 <= rem < 86400
    ensures 0 <= rem / 3600 < 24 && 0 <= (rem % 3600) / 60 < 60
    ensures 3600 * (rem / 3600) + 60 * ((rem % 3600) / 60) + rem % 60 == rem
  {
    assert rem % 60 == (rem % 3600) % 60;
  }

  lemma YearFits(t: DateTime)
    requires Valid(t)
    ensures t.year < POW32 <==> Seconds(t) < FirstUnrepresentable()
  {
    DayOfYearBound(t.year, t.month, t.day);
    if t.year < POW32 {
      DaysBeforeYearMonotone(t.year, POW32);
    } else if t.year > POW32 {
      DaysBeforeYearMonotone(POW32, t.year);
    }
  }

  /** Later seconds give lexicographically later results. */
  lemma UnixToYmdhmsMonotone(a: U64, b: U64)
    requires a < b < FirstUnrepresentable()
    ensures Before(UnixToYmdhms(a), UnixToYmdhms(b))
  {
    UnixToYmdhmsCorrect(a);
    UnixToYmdhmsCorrect(b);
    var r, t := UnixToYmdhms(a), UnixToYmdhms(b);
    if Before(t, r) {
      SecondsMonotone(t, r);
    }
  }
}
