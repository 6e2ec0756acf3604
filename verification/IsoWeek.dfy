/** Week keys of backup instants, from the year 0 on: JavaScript's calendar arithmetic and the ISO 8601
    week date computed with it. Days count from 1970-01-01. */
module IsoWeek {
  import opened JsonText

  const MS_PER_DAY := 86400000

  function DayOf(instant: int): int {
    instant / MS_PER_DAY
  }

  // ---- The Gregorian calendar ----

  /** The multiples of n between the year 1970 and y, up to a constant. */
  function Multiples(y: int, offset: int, n: int): int
    requires n > 0
  {
    (y - offset) / n
  }

  function YearStart(y: int): int {
    365 * (y - 1970) + Multiples(y, 1969, 4) - Multiples(y, 1901, 100) + Multiples(y, 1601, 400)
  }

  predicate Leap(y: int) {
    y % 4 == 0 && (y % 100 != 0 || y % 400 == 0)
  }

  lemma YearLength(y: int)
    ensures YearStart(y + 1) == YearStart(y) + if Leap(y) then 366 else 365
  {
    hide Multiples, Leap;
    FourthYear(y);
    HundredthYear(y);
    FourHundredthYear(y);
    LeapCount(y);
  }

  lemma LeapCount(y: int)
    ensures (if Leap(y) then 1 else 0)
         == (if y % 4 == 0 then 1 else 0) - (if y % 100 == 0 then 1 else 0) + (if y % 400 == 0 then 1 else 0)
  {
    if y % 100 == 0 { assert y == 4 * (25 * (y / 100)); }
    if y % 400 == 0 { assert y == 100 * (4 * (y / 400)); }
  }

  lemma FourthYear(y: int)
    ensures Multiples(y + 1, 1969, 4) == Multiples(y, 1969, 4) + if y % 4 == 0 then 1 else 0
  {
  }

  lemma HundredthYear(y: int)
    ensures Multiples(y + 1, 1901, 100) == Multiples(y, 1901, 100) + if y % 100 == 0 then 1 else 0
  {
  }

  lemma FourHundredthYear(y: int)
    ensures Multiples(y + 1, 1601, 400) == Multiples(y, 1601, 400) + if y % 400 == 0 then 1 else 0
  {
  }

  const FIRST_DAY := YearStart(0)

  function YearFrom(day: int, y: int): (r: int)
    requires YearStart(y) <= day
    ensures y <= r && YearStart(r) <= day < YearStart(r + 1)
    decreases day - YearStart(y)
  {
    YearLength(y);
    if day < YearStart(y + 1) then y else YearFrom(day, y + 1)
  }

  function YearOf(day: int): (y: int)
    requires FIRST_DAY <= day
    ensures 0 <= y && YearStart(y) <= day < YearStart(y + 1)
  {
    YearFrom(day, 0)
  }

  lemma {:induction false} YearsAreOrdered(y: int, z: int)
    requires y <= z
    ensures YearStart(y) <= YearStart(z)
    decreases z - y
  {
    if y < z {
      YearLength(z - 1);
      YearsAreOrdered(y, z - 1);
    }
  }

  /** A day lies in one year. */
  lemma YearIsUnique(day: int, y: int)
    requires FIRST_DAY <= day && YearStart(y) <= day < YearStart(y + 1)
    ensures YearOf(day) == y
  {
    var z := YearOf(day);
    if y < z { YearsAreOrdered(y + 1, z); }
    if z < y { YearsAreOrdered(z + 1, y); }
  }

  function DayOfYear(day: int): int
    requires FIRST_DAY <= day
  {
    day - YearStart(YearOf(day))
  }

  const MONTH_STARTS := [0, 31, 59, 90, 120, 151, 181, 212, 243, 273, 304, 334]

  function MonthStart(leap: bool, month: nat): int
    requires month < 12
  {
    MONTH_STARTS[month] + if leap && month >= 2 then 1 else 0
  }

  /** The last month that starts on or before a day of the year. */
  function MonthFrom(leap: bool, dayOfYear: int, month: nat): (m: nat)
    requires month < 12 && MonthStart(leap, 0) <= dayOfYear
    ensures m < 12 && MonthStart(leap, m) <= dayOfYear
    decreases month
  {
    if MonthStart(leap, month) <= dayOfYear || month == 0 then month else MonthFrom(leap, dayOfYear, month - 1)
  }

  /** `Date.UTC`: years 0 to 99 are read as 1900 to 1999. */
  function DateUtc(year: int, month: nat, date: int): int
    requires month < 12
  {
    var full := if 0 <= year <= 99 then 1900 + year else year;
    YearStart(full) + MonthStart(Leap(full), month) + date - 1
  }

  // ---- The week key ----

  /** The day the key is computed for: the date's own year, month and date put through `Date.UTC`. */
  function UtcDay(day: int): int
    requires FIRST_DAY <= day
  {
    var y := YearOf(day);
    var month := MonthFrom(Leap(y), DayOfYear(day), 11);
    DateUtc(y, month, DayOfYear(day) - MonthStart(Leap(y), month) + 1)
  }

  /** Monday is 1 and Sunday 7; 1970-01-01 was a Thursday. */
  function Weekday(day: int): (w: int)
    ensures 1 <= w <= 7
  {
    if (day + 4) % 7 == 0 then 7 else (day + 4) % 7
  }

  function Thursday(day: int): int {
    day + 4 - Weekday(day)
  }

  function CeilDiv(a: int, b: int): int
    requires b > 0
  {
    -((-a) / b)
  }

  function KeyYear(day: int): int
    requires FIRST_DAY <= day
  {
    UtcDayIsLate(day);
    YearOf(Thursday(UtcDay(day)))
  }

  function KeyWeek(day: int): int
    requires FIRST_DAY <= day
  {
    UtcDayIsLate(day);
    CeilDiv(Thursday(UtcDay(day)) - DateUtc(KeyYear(day), 0, 1) + 1, 7)
  }

  function PadTwo(n: int): Text {
    if 0 <= n < 10 then [0x30] + Decimal(n) else Decimal(n)
  }

  /** The year, a hyphen, `W` and the week number padded to two places. */
  function WeekKey(day: int): Text
    requires FIRST_DAY <= day
  {
    Decimal(KeyYear(day)) + [MINUS, 0x57] + PadTwo(KeyWeek(day))
  }

  method IsoWeekKey(instant: int) returns (key: Text)
    requires FIRST_DAY <= DayOf(instant)
    ensures key == WeekKey(DayOf(instant))
  {
    hide YearStart, UtcDay, Weekday, DateUtc, YearOf;
    var cursor := UtcDay(DayOf(instant));
    UtcDayIsLate(DayOf(instant));
    var weekday := Weekday(cursor);
    cursor := cursor + 4 - weekday;
    var yearStart := DateUtc(YearOf(cursor), 0, 1);
    var week := CeilDiv(cursor - yearStart + 1, 7);
    key := Decimal(YearOf(cursor)) + [MINUS, 0x57] + PadTwo(week);
  }

  // ---- What the key means ----

  predicate SameWeek(a: int, b: int) {
    Thursday(a) == Thursday(b)
  }

  /** Two days have the same Thursday exactly when some Monday-to-Sunday week holds both. */
  lemma SameWeekMeans(a: int, b: int)
    ensures SameWeek(a, b) <==> a - Weekday(a) == b - Weekday(b)
    ensures SameWeek(a, b) <==> exists monday :: Weekday(monday) == 1 && monday <= a < monday + 7 && monday <= b < monday + 7
  {
    hide Weekday;
    var monday := a - Weekday(a) + 1;
    WeekFrom(monday, a);
    WeekFrom(monday, b);
    if exists m :: Weekday(m) == 1 && m <= a < m + 7 && m <= b < m + 7 {
      var m :| Weekday(m) == 1 && m <= a < m + 7 && m <= b < m + 7;
      WeekFrom(m, a);
      WeekFrom(m, b);
    }
  }

  lemma WeekFrom(monday: int, day: int)
    ensures monday == day - Weekday(day) + 1 ==> Weekday(monday) == 1
    ensures Weekday(monday) == 1 && monday <= day < monday + 7 ==> Weekday(day) == day - monday + 1
  {
  }

  /** `Date.UTC` gives the day back from the year 100 on. */
  lemma UtcDayOfLateYears(day: int)
    requires FIRST_DAY <= day && YearOf(day) >= 100
    ensures UtcDay(day) == day
  {
    hide YearStart, MonthStart, YearOf, MonthFrom;
  }

  /** Before that it gives a day of the 1900s. */
  lemma UtcDayOfEarlyYears(day: int)
    requires FIRST_DAY <= day && YearOf(day) < 100
    ensures YearStart(1900) <= UtcDay(day) < YearStart(2000)
  {
    hide YearStart, YearOf, MonthFrom, Leap;
    var y := YearOf(day);
    var month := MonthFrom(Leap(y), DayOfYear(day), 11);
    YearLength(y);
    YearLength(1900 + y);
    YearsAreOrdered(1900, 1900 + y);
    YearsAreOrdered(1900 + y + 1, 2000);
    CenturiesAgree(y);
    assert UtcDay(day) == YearStart(1900 + y) + DayOfYear(day) + (MonthStart(Leap(1900 + y), month) - MonthStart(Leap(y), month));
    if y == 0 {
      YearLength(1901);
      YearsAreOrdered(1902, 2000);
    }
  }

  /** Only the years 0 and 1900 differ in length, and only by the leap day. */
  lemma CenturiesAgree(y: int)
    requires 0 <= y < 100
    ensures y > 0 ==> (Leap(y) <==> Leap(1900 + y))
    ensures y == 0 ==> Leap(y) && !Leap(1900 + y)
  {
  }

  lemma UtcDayIsLate(day: int)
    requires FIRST_DAY <= day
    ensures FIRST_DAY <= UtcDay(day) && FIRST_DAY <= Thursday(UtcDay(day))
  {
    hide YearOf, UtcDay, YearStart;
    YearsAreOrdered(0, 1900);
    YearLength(0);
    if YearOf(day) >= 100 {
      UtcDayOfLateYears(day);
      YearsAreOrdered(1, YearOf(day));
    } else {
      UtcDayOfEarlyYears(day);
      YearsAreOrdered(1, 1900);
    }
  }

  // ---- The key decides the week ----

  lemma PadTwoReadable(m: int, n: int)
    requires PadTwo(m) == PadTwo(n)
    ensures m == n
  {
    PadTwoValue(m);
    PadTwoValue(n);
    if m < 0 || n < 0 {
      DecimalReadable(m, n, [], []);
    }
  }

  lemma PadTwoValue(n: int)
    ensures n < 0 <==> PadTwo(n)[0] == MINUS
    ensures n >= 0 ==> DigitsValue(PadTwo(n)) == n
    ensures n < 0 ==> PadTwo(n) == Decimal(n) + []
  {
    SignFirst(n);
    if 0 <= n < 10 {
      assert PadTwo(n) == [0x30, 0x30 + n];
      assert PadTwo(n)[..1] == [0x30];
      assert DigitsValue([0x30]) == 0;
    } else if n >= 10 {
      DigitsValueOfDigits(n);
    }
  }

  /** The text of a key holds the year and the week number. */
  lemma WeekKeyReadable(a: int, b: int)
    requires FIRST_DAY <= a && FIRST_DAY <= b
    ensures WeekKey(a) == WeekKey(b) <==> KeyYear(a) == KeyYear(b) && KeyWeek(a) == KeyWeek(b)
  {
    hide KeyYear, KeyWeek, Decimal, PadTwo;
    if WeekKey(a) == WeekKey(b) {
      var p, q: Text := [MINUS, 0x57] + PadTwo(KeyWeek(a)), [MINUS, 0x57] + PadTwo(KeyWeek(b));
      assert WeekKey(a) == Decimal(KeyYear(a)) + p && WeekKey(b) == Decimal(KeyYear(b)) + q;
      DecimalReadable(KeyYear(a), KeyYear(b), p, q);
      assert p[2..] == PadTwo(KeyWeek(a)) && q[2..] == PadTwo(KeyWeek(b));
      PadTwoReadable(KeyWeek(a), KeyWeek(b));
    }
  }

  lemma ThursdayIsWhole(a: int)
    ensures Thursday(a) == 7 * (Thursday(a) / 7)
  {
  }

  lemma CeilShift(p: int, c: int)
    ensures CeilDiv(7 * p + c, 7) == p + CeilDiv(c, 7)
  {
    assert (-(7 * p + c)) / 7 == (-c) / 7 - p;
  }

  lemma SameCeilSameThursday(a: int, b: int, start: int)
    requires CeilDiv(Thursday(a) - start + 1, 7) == CeilDiv(Thursday(b) - start + 1, 7)
    ensures Thursday(a) == Thursday(b)
  {
    hide CeilDiv, Thursday;
    ThursdayIsWhole(a);
    ThursdayIsWhole(b);
    CeilShift(Thursday(a) / 7, 1 - start);
    CeilShift(Thursday(b) / 7, 1 - start);
  }

  /** Equal keys mean the same week of the days the keys are computed for, at every instant. */
  lemma WeekKeyDecides(a: int, b: int)
    requires FIRST_DAY <= a && FIRST_DAY <= b
    ensures WeekKey(a) == WeekKey(b) <==> SameWeek(UtcDay(a), UtcDay(b))
  {
    hide WeekKey, UtcDay, YearOf, DateUtc, Weekday, CeilDiv, Thursday;
    UtcDayIsLate(a);
    UtcDayIsLate(b);
    WeekKeyReadable(a, b);
    if KeyYear(a) == KeyYear(b) && KeyWeek(a) == KeyWeek(b) {
      SameCeilSameThursday(UtcDay(a), UtcDay(b), DateUtc(KeyYear(a), 0, 1));
    }
  }

  /** Equal keys mean the same week for all days of the years from 100 on, and for no others: a day of an
      earlier year shares its key with a day some nineteen centuries away. */
  lemma KeysAreWeeksFromYear100(a: int)
    requires FIRST_DAY <= a
    ensures (forall b :: FIRST_DAY <= b && YearOf(b) >= 100 ==> (WeekKey(a) == WeekKey(b) <==> SameWeek(a, b)))
       <==> YearOf(a) >= 100
  {
    hide WeekKey, UtcDay, YearOf, Thursday, YearStart;
    if YearOf(a) >= 100 {
      forall b | FIRST_DAY <= b && YearOf(b) >= 100
        ensures WeekKey(a) == WeekKey(b) <==> SameWeek(a, b)
      {
        WeekKeyDecides(a, b);
        UtcDayOfLateYears(a);
        UtcDayOfLateYears(b);
      }
    } else {
      var b := UtcDay(a);
      UtcDayOfEarlyYears(a);
      UtcDayIsLate(a);
      LateImage(a);
      UtcDayOfLateYears(b);
      WeekKeyDecides(a, b);
    }
  }

  /** The day an early date is confused with lies after the year 1900 and so in another week. */
  lemma LateImage(a: int)
    requires FIRST_DAY <= a && YearOf(a) < 100
    ensures FIRST_DAY <= UtcDay(a) && YearOf(UtcDay(a)) >= 100 && !SameWeek(a, UtcDay(a))
  {
    hide UtcDay, MonthStart;
    UtcDayIsLate(a);
    UtcDayOfEarlyYears(a);
    YearsAreOrdered(YearOf(a) + 1, 100);
    YearBefore(UtcDay(a), 100);
    YearsAreOrdered(100, 1900);
    assert YearStart(1900) - YearStart(100) > 1000;
  }

  /** The first of January of the year 50 gets the key of the first of January 1950. */
  lemma YearFiftyIsReadAsNineteenFifty()
    ensures WeekKey(YearStart(50)) == WeekKey(YearStart(1950)) && !SameWeek(YearStart(50), YearStart(1950))
  {
    hide WeekKey, MonthFrom, UtcDay, YearOf;
    assert FIRST_DAY <= YearStart(50);
    YearLength(50);
    YearLength(1950);
    YearIsUnique(YearStart(50), 50);
    YearIsUnique(YearStart(1950), 1950);
    UtcDayOfLateYears(YearStart(1950));
    assert UtcDay(YearStart(50)) == YearStart(1950) by { FirstOfJanuary(YearStart(50)); }
    WeekKeyDecides(YearStart(50), YearStart(1950));
  }

  lemma FirstOfJanuary(day: int)
    requires FIRST_DAY <= day && DayOfYear(day) == 0
    ensures UtcDay(day) == DateUtc(YearOf(day), 0, 1)
  {
    hide YearOf, YearStart;
    assert MonthStart(Leap(YearOf(day)), 0) == 0;
    var m := MonthFrom(Leap(YearOf(day)), 0, 11);
    assert m == 0;
  }

  /** The week number of a date lies between 1 and 53, except on the first three days of the year 100,
      whose Thursday falls in the year 99. */
  lemma WeekNumberRange(day: int)
    requires FIRST_DAY <= day
    ensures 1 <= KeyWeek(day) <= 53 <==> !(YearStart(100) <= day < YearStart(100) + 3)
  {
    hide UtcDay, YearOf;
    UtcDayIsLate(day);
    KeyYearRange(day);
    var y := KeyYear(day);
    var t := Thursday(UtcDay(day));
    assert YearStart(y) <= t < YearStart(y + 1);
    YearLength(y);
    if y < 100 {
      YearsAreOrdered(y + 1, 1900 + y);
      assert DateUtc(y, 0, 1) == YearStart(1900 + y);
      assert t < DateUtc(y, 0, 1);
    } else {
      assert DateUtc(y, 0, 1) == YearStart(y);
    }
  }

  /** Week 1 of a year is the one that holds 4 January, and weeks belong to the year of their Thursday (ISO 8601):
      so the key names the date's week from the fourth day of the year 100 on. */
  lemma WeekOneHoldsFourthOfJanuary(day: int)
    requires YearStart(100) + 3 <= day && FIRST_DAY <= day
    ensures YearStart(KeyYear(day)) <= Thursday(day) < YearStart(KeyYear(day) + 1)
    ensures Thursday(day) == Thursday(YearStart(KeyYear(day)) + 3) + 7 * (KeyWeek(day) - 1)
  {
    hide UtcDay, YearOf, YearStart, Weekday;
    UtcDayIsLate(day);
    KeyYearRange(day);
    YearBefore(day, 100);
    UtcDayOfLateYears(day);
    var start := YearStart(KeyYear(day));
    assert DateUtc(KeyYear(day), 0, 1) == start;
    ThursdayIsWhole(day);
    ThursdayIsWhole(start + 3);
    CeilShift(Thursday(day) / 7 - Thursday(start + 3) / 7, Thursday(start + 3) - start + 1);
  }

  lemma KeyYearRange(day: int)
    requires FIRST_DAY <= day
    ensures KeyYear(day) < 100 <==> YearStart(100) <= day < YearStart(100) + 3
  {
    hide UtcDay, YearOf, MonthStart;
    var u := UtcDay(day);
    UtcDayIsLate(day);
    var t := Thursday(u);
    YearBefore(t, 100);
    YearBefore(u, 100);
    YearBefore(day, 100);
    if YearOf(day) >= 100 {
      UtcDayOfLateYears(day);
      assert Weekday(YearStart(100)) == 5;
    } else {
      UtcDayOfEarlyYears(day);
    }
  }

  lemma YearBefore(day: int, y: int)
    requires FIRST_DAY <= day
    ensures YearOf(day) < y <==> day < YearStart(y)
  {
    if YearOf(day) < y {
      YearsAreOrdered(YearOf(day) + 1, y);
    } else {
      YearsAreOrdered(y, YearOf(day));
    }
  }
}
