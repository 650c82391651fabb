/** Gregorian dates and Julian day numbers. */
module Date {
  import CInt

  datatype YearMonthDay = YearMonthDay(year: int, month: int, day: int)

  const EPOCH_DAY := 2440588

  function JulianDayNumber(year: int, month: int, day: int): int {
    var a := CInt.Div(14 - month, 12);
    var y := year + 4800 - a;
    var m := month + 12 * a - 3;
    day + CInt.Div(153 * m + 2, 5) + y * 365 + CInt.Div(y, 4) - CInt.Div(y, 100) + CInt.Div(y, 400) - 32045
  }

  function ToYearMonthDay(julianDayNumber: int): YearMonthDay {
    var a := julianDayNumber + 32044;
    var b := CInt.Div(4 * a + 3, 146097);
    var c := a - CInt.Div(b * 146097, 4);
    var d := CInt.Div(4 * c + 3, 1461);
    var e := c - CInt.Div(1461 * d, 4);
    var m := CInt.Div(5 * e + 2, 153);
    YearMonthDay(b * 100 + d - 4800 + CInt.Div(m, 10), m + 3 - 12 * CInt.Div(m, 10), e - CInt.Div(153 * m + 2, 5) + 1)
  }

  function WeekDay(julianDayNumber: int): int {
    CInt.Rem(julianDayNumber + 1, 7)
  }

  // ---------------------------------------------------------------- the calendar

  predicate Leap(year: int) {
    year % 4 == 0 && (year % 100 != 0 || year % 400 == 0)
  }

  function DaysInMonth(year: int, month: int): int {
    if month == 2 then (if Leap(year) then 29 else 28)
    else if month in {4, 6, 9, 11} then 30 else 31
  }

  predicate Valid(d: YearMonthDay) {
    1 <= d.month <= 12 && 1 <= d.day <= DaysInMonth(d.year, d.month)
  }

  predicate Before(d: YearMonthDay, e: YearMonthDay) {
    d.year < e.year || (d.year == e.year && (d.month < e.month || (d.month == e.month && d.day < e.day)))
  }

  // The range of the conversions: from 1 March of the year -4800 on.
  predicate InRange(d: YearMonthDay) {
    Valid(d) && !Before(d, YearMonthDay(-4800, 3, 1))
  }

  function NextDay(d: YearMonthDay): YearMonthDay {
    if d.day < DaysInMonth(d.year, d.month) then d.(day := d.day + 1)
    else if d.month < 12 then YearMonthDay(d.year, d.month + 1, 1)
    else YearMonthDay(d.year + 1, 1, 1)
  }

  function Number(d: YearMonthDay): int {
    JulianDayNumber(d.year, d.month, d.day)
  }

  // ---------------------------------------------------------------- years that begin in March

  // The March-based year of a date, counted from -4800, its month counted from March, and the day within that year.
  function MarchYear(d: YearMonthDay): int { d.year + 4800 - (if d.month <= 2 then 1 else 0) }

  function MarchMonth(d: YearMonthDay): int { if d.month <= 2 then d.month + 9 else d.month - 3 }

  function MonthStart(m: int): int { (153 * m + 2) / 5 }

  function YearStart(y: int): int { 365 * y + y / 4 - y / 100 + y / 400 }

  function DayOfYear(d: YearMonthDay): int { MonthStart(MarchMonth(d)) + d.day - 1 }

  lemma NumberParts(d: YearMonthDay)
    requires 1 <= d.month <= 12 && MarchYear(d) >= 0
    ensures Number(d) == YearStart(MarchYear(d)) + DayOfYear(d) - 32044
    ensures 0 <= MarchMonth(d) <= 11
  {
    assert CInt.Div(14 - d.month, 12) == if d.month <= 2 then 1 else 0;
    NumberTerms(MarchYear(d), MarchMonth(d));
    hide CInt.Div;
  }

  lemma NumberTerms(y: int, m: int)
    requires y >= 0 && 0 <= m <= 11
    ensures CInt.Div(153 * m + 2, 5) == MonthStart(m) && 365 * y + CInt.Div(y, 4) - CInt.Div(y, 100) + CInt.Div(y, 400) == YearStart(y)
  {
  }

  // A quotient steps at the multiples of n; 4800 is one.
  lemma Tick(y: int, n: int)
    requires n in {4, 100, 400}
    ensures (y + 1) / n - y / n == if (y + 1) % n == 0 then 1 else 0
    ensures (y + 1 - 4800) % n == (y + 1) % n
  {
    if n == 4 {
    } else if n == 100 {
    } else {
    }
  }

  lemma Centuries(y: int)
    requires y % 400 == 0
    ensures y % 100 == 0
  {
  }

  lemma Quadrennia(y: int)
    requires y % 100 == 0
    ensures y % 4 == 0
  {
  }

  lemma YearLength(y: int)
    ensures YearStart(y + 1) - YearStart(y) == if Leap(y + 1 - 4800) then 366 else 365
  {
    Tick(y, 4);
    Tick(y, 100);
    Tick(y, 400);
    if (y + 1) % 400 == 0 {
      Centuries(y + 1);
    }
    if (y + 1) % 100 == 0 {
      Quadrennia(y + 1);
    }
  }

  lemma {:induction false} YearStartsGrow(y: int, z: int)
    requires y < z
    ensures YearStart(y + 1) <= YearStart(z)
    decreases z - y
  {
    if y + 1 < z {
      YearLength(y + 1);
      YearStartsGrow(y + 1, z);
    }
  }

  // Within its month and its year.
  lemma DayBounds(d: YearMonthDay)
    requires Valid(d)
    ensures MonthStart(MarchMonth(d)) <= DayOfYear(d)
    ensures MarchMonth(d) < 11 ==> DayOfYear(d) < MonthStart(MarchMonth(d) + 1)
    ensures 0 <= DayOfYear(d) < YearStart(MarchYear(d) + 1) - YearStart(MarchYear(d))
  {
    YearLength(MarchYear(d));
  }

  lemma MonthStartsGrow(m: int, n: int)
    requires 0 <= m < n <= 11
    ensures MonthStart(m + 1) <= MonthStart(n)
  {
  }

  // ---------------------------------------------------------------- the conversions

  // Later dates have larger numbers, and only they.
  lemma NumberIsOrdered(d: YearMonthDay, e: YearMonthDay)
    requires InRange(d) && InRange(e)
    ensures Before(d, e) <==> Number(d) < Number(e)
  {
    if Before(d, e) {
      BeforeIsLess(d, e);
    } else if d != e {
      BeforeIsLess(e, d);
    }
  }

  lemma SameMonth(d: YearMonthDay, e: YearMonthDay)
    requires MarchMonth(d) == MarchMonth(e) && d.day < e.day
    ensures DayOfYear(d) < DayOfYear(e)
  {
  }

  lemma BeforeIsLess(d: YearMonthDay, e: YearMonthDay)
    requires InRange(d) && InRange(e) && Before(d, e)
    ensures Number(d) < Number(e)
  {
    hide YearStart, MonthStart, Number, Leap, DayOfYear;
    NumberParts(d);
    NumberParts(e);
    DayBounds(d);
    DayBounds(e);
    if MarchYear(d) < MarchYear(e) {
      YearStartsGrow(MarchYear(d), MarchYear(e));
    } else if MarchMonth(d) < MarchMonth(e) {
      MonthStartsGrow(MarchMonth(d), MarchMonth(e));
    } else {
      assert DayOfYear(d) < DayOfYear(e) by { SameMonth(d, e); }
    }
  }

  lemma MonthLength(year: int, month: int)
    requires 1 <= month <= 12 && month != 2
    ensures var m := MarchMonth(YearMonthDay(year, month, 1)); 0 <= m <= 10 && MonthStart(m + 1) == MonthStart(m) + DaysInMonth(year, month)
  {
  }

  lemma FebruaryEnds(d: YearMonthDay)
    requires Valid(d) && d.month == 2 && d.day == DaysInMonth(d.year, 2)
    ensures DayOfYear(d) + 1 == YearStart(MarchYear(d) + 1) - YearStart(MarchYear(d))
    ensures DayOfYear(YearMonthDay(d.year, 3, 1)) == 0
  {
    YearLength(MarchYear(d));
    hide YearStart, Leap;
  }

  lemma MonthEnds(d: YearMonthDay)
    requires Valid(d) && d.month != 2 && d.day == DaysInMonth(d.year, d.month)
    ensures DayOfYear(NextDay(d)) == DayOfYear(d) + 1 && MarchYear(NextDay(d)) == MarchYear(d)
  {
    MonthLength(d.year, d.month);
    hide MonthStart, DaysInMonth;
  }

  // The next calendar day is the next number.
  lemma NextDayIsNext(d: YearMonthDay)
    requires InRange(d)
    ensures InRange(NextDay(d)) && Number(NextDay(d)) == Number(d) + 1
  {
    hide Leap, YearStart, Number, MonthStart, DayOfYear;
    NumberParts(d);
    NumberParts(NextDay(d));
    if d.day == DaysInMonth(d.year, d.month) {
      if d.month == 2 {
        FebruaryEnds(d);
      } else {
        MonthEnds(d);
      }
    } else {
      SameMonthNext(d);
    }
  }

  lemma SameMonthNext(d: YearMonthDay)
    ensures DayOfYear(d.(day := d.day + 1)) == DayOfYear(d) + 1
  {
  }

  // The decoder's intermediate values on a day number counted from -4800-03-01.
  lemma Century(a: int, b: int, c: int)
    requires a >= 0 && b == (4 * a + 3) / 146097 && c == a - 146097 * b / 4
    ensures b >= 0 && 0 <= c <= 36524 && (c == 36524 ==> b % 4 == 3)
    ensures 146097 * b / 4 == 36524 * b + b / 4
  {
  }

  lemma YearInCentury(c: int, d: int, e: int)
    requires 0 <= c <= 36524 && d == (4 * c + 3) / 1461 && e == c - 1461 * d / 4
    ensures 0 <= d <= 99 && 0 <= e <= 365 && 1461 * d / 4 == 365 * d + d / 4
    ensures e == 365 ==> d % 4 == 3 && (d == 99 ==> c == 36524)
  {
  }

  lemma MonthInYear(e: int, m: int)
    requires 0 <= e <= 365 && m == (5 * e + 2) / 153
    ensures 0 <= m <= 11 && MonthStart(m) <= e && (m < 11 ==> e < MonthStart(m + 1)) && (m == 11 ==> e < MonthStart(11) + 29)
  {
  }

  lemma SplitYear(b: int, d: int)
    requires b >= 0 && 0 <= d <= 99
    ensures YearStart(100 * b + d) == 36524 * b + b / 4 + 365 * d + d / 4
  {
    var y := 100 * b + d;
    assert y / 100 == b;
    assert y / 4 == 25 * b + d / 4;
    assert y / 400 == b / 4;
  }

  // Every day number decodes to a valid date that encodes back to it.
  lemma DecodeThenEncode(j: int)
    requires j >= -32044
    ensures InRange(ToYearMonthDay(j)) && Number(ToYearMonthDay(j)) == j
  {
    hide ToYearMonthDay, YearStart, Number, Leap, MonthStart, InRange;
    var b, d, e, m := Decoded(j);
    Assembled(ToYearMonthDay(j), 100 * b + d, m, e);
    SplitYear(b, d);
  }

  // The decoder's century, year, day of the year and month.
  lemma Decoded(j: int) returns (b: int, d: int, e: int, m: int)
    requires j >= -32044
    ensures b >= 0 && 0 <= d <= 99 && j + 32044 == 36524 * b + b / 4 + 365 * d + d / 4 + e
    ensures 0 <= m <= 11 && MonthStart(m) <= e && (m < 11 ==> e < MonthStart(m + 1)) && (m == 11 ==> e < MonthStart(11) + 29)
    ensures e == 365 ==> Leap(100 * b + d + 1 - 4800)
    ensures ToYearMonthDay(j) == YearMonthDay(100 * b + d - 4800 + m / 10, m + 3 - 12 * (m / 10), e - MonthStart(m) + 1)
  {
    var a := j + 32044;
    b := (4 * a + 3) / 146097;
    var c := a - 146097 * b / 4;
    d := (4 * c + 3) / 1461;
    e := c - 1461 * d / 4;
    m := (5 * e + 2) / 153;
    Century(a, b, c);
    YearInCentury(c, d, e);
    MonthInYear(e, m);
    LeapDayOnly(b, c, d, e, m);
    hide Leap, MonthStart, ToYearMonthDay;
    Floors(j, a, b, c, d, e, m);
  }

  // On these values truncation is the floor.
  lemma Floors(j: int, a: int, b: int, c: int, d: int, e: int, m: int)
    requires a == j + 32044 >= 0 && b == (4 * a + 3) / 146097 >= 0 && c == a - 146097 * b / 4 >= 0
    requires d == (4 * c + 3) / 1461 >= 0 && e == c - 1461 * d / 4 >= 0 && m == (5 * e + 2) / 153 >= 0
    ensures ToYearMonthDay(j) == YearMonthDay(100 * b + d - 4800 + m / 10, m + 3 - 12 * (m / 10), e - MonthStart(m) + 1)
  {
    hide CInt.Div;
    CInt.DivFloor(4 * a + 3, 146097);
    CInt.DivFloor(b * 146097, 4);
    CInt.DivFloor(4 * c + 3, 1461);
    CInt.DivFloor(1461 * d, 4);
    CInt.DivFloor(5 * e + 2, 153);
    CInt.DivFloor(m, 10);
    CInt.DivFloor(153 * m + 2, 5);
  }

  // A month and a day within a March year make a valid date of that place.
  lemma Assembled(r: YearMonthDay, y: int, m: int, e: int)
    requires y >= 0 && 0 <= m <= 11 && MonthStart(m) <= e && (m < 11 ==> e < MonthStart(m + 1)) && (m == 11 ==> e < MonthStart(11) + 29)
    requires e == 365 ==> Leap(y + 1 - 4800)
    requires r == YearMonthDay(y - 4800 + m / 10, m + 3 - 12 * (m / 10), e - MonthStart(m) + 1)
    ensures InRange(r) && Number(r) == YearStart(y) + e - 32044
  {
    hide Leap, YearStart, Number;
    assert MarchYear(r) == y && MarchMonth(r) == m && DayOfYear(r) == e;
    NumberParts(r);
    if r.month != 2 {
      MonthLength(r.year, r.month);
    }
  }

  // Day 365 of a March year is 29 February of a leap year.
  lemma LeapDayOnly(b: int, c: int, d: int, e: int, m: int)
    requires b >= 0 && 0 <= d <= 99 && (e == 365 ==> d % 4 == 3 && (d == 99 ==> b % 4 == 3))
    ensures e == 365 ==> Leap(100 * b + d + 1 - 4800)
  {
    if e == 365 {
      var y := 100 * b + d + 1;
      assert y % 4 == 0;
      if d == 99 {
        assert y == 100 * (b + 1) && y % 400 == 0;
      } else {
        assert y % 100 == d + 1;
      }
    }
  }

  // Every valid date is what its number decodes to.
  lemma EncodeThenDecode(d: YearMonthDay)
    requires InRange(d)
    ensures Number(d) >= -32044 && ToYearMonthDay(Number(d)) == d
  {
    NumberParts(d);
    DayBounds(d);
    YearStartNonNegative(MarchYear(d));
    DecodeThenEncode(Number(d));
    NumberIsOrdered(d, ToYearMonthDay(Number(d)));
    NumberIsOrdered(ToYearMonthDay(Number(d)), d);
  }

  lemma YearStartNonNegative(y: int)
    requires y >= 0
    ensures YearStart(y) >= 0
  {
  }

  // The week day as the calendar counts it, from Sunday; day 0 was a Monday.
  function DayOfWeek(j: int): int { (j + 1) % 7 }

  // The code's remainder truncates, so its week day is right exactly from day -1 on, and on the Sundays before; on the
  // other days before it is negative, a week too small.
  lemma WeekDayIs(j: int)
    ensures 0 <= WeekDay(j) <= 6 <==> j >= -1 || DayOfWeek(j) == 0
    ensures WeekDay(j) == DayOfWeek(j) - if j >= -1 || DayOfWeek(j) == 0 then 0 else 7
  {
    CInt.TruncatedIsFloor(j + 1, 7);
    hide CInt.Div;
  }

  // The next calendar day has the next day of the week.
  lemma WeekDaysCycle(d: YearMonthDay)
    requires InRange(d)
    ensures DayOfWeek(Number(NextDay(d))) == (DayOfWeek(Number(d)) + 1) % 7
    ensures Number(d) >= -1 ==> WeekDay(Number(NextDay(d))) == (WeekDay(Number(d)) + 1) % 7
  {
    hide Number, NextDay, WeekDay, InRange;
    NextDayIsNext(d);
    var j := Number(d);
    WeekDayIs(j);
    WeekDayIs(j + 1);
  }

  // 1 January 1970 is day 2440588, a Thursday.
  lemma Epoch()
    ensures Number(YearMonthDay(1970, 1, 1)) == EPOCH_DAY == 2440588
    ensures DayOfWeek(EPOCH_DAY) == 4 && ToYearMonthDay(EPOCH_DAY) == YearMonthDay(1970, 1, 1)
  {
    EpochNumber();
    hide Number, ToYearMonthDay;
    EncodeThenDecode(YearMonthDay(1970, 1, 1));
  }

  lemma EpochNumber()
    ensures Number(YearMonthDay(1970, 1, 1)) == 2440588 && InRange(YearMonthDay(1970, 1, 1))
  {
    var d := YearMonthDay(1970, 1, 1);
    assert YearStart(6769) == 2472326;
    NumberParts(d);
    hide Number;
  }

  lemma LastOf1969()
    ensures Number(YearMonthDay(1969, 12, 31)) == 2440587 && ToYearMonthDay(2440587) == YearMonthDay(1969, 12, 31)
    ensures Number(YearMonthDay(1969, 1, 1)) == 2440587 - 364
  {
    EpochNumber();
    FirstOf1969();
    hide Number, ToYearMonthDay;
    var d := YearMonthDay(1969, 12, 31);
    NextDayIsNext(d);
    EncodeThenDecode(d);
  }

  lemma FirstOf1969()
    ensures Number(YearMonthDay(1969, 1, 1)) == 2440587 - 364
  {
    var d := YearMonthDay(1969, 1, 1);
    assert YearStart(6768) == 2471961;
    NumberParts(d);
    hide Number;
  }

  // The days since 1 January count up by one a day.
  lemma DaysOfYear(d: YearMonthDay)
    requires InRange(d) && InRange(YearMonthDay(d.year, 1, 1))
    ensures var start := JulianDayNumber(d.year, 1, 1);
            && Number(d) >= start && (Number(d) == start <==> d.month == 1 && d.day == 1)
            && (NextDay(d).year == d.year ==> Number(NextDay(d)) - start == Number(d) - start + 1)
            && (NextDay(d).year != d.year ==> d.month == 12 && d.day == 31 && Number(NextDay(d)) == JulianDayNumber(d.year + 1, 1, 1))
  {
    hide JulianDayNumber;
    var first := YearMonthDay(d.year, 1, 1);
    NumberIsOrdered(first, d);
    NumberIsOrdered(d, first);
    NextDayIsNext(d);
  }

  // Inside the range of the conversions: 21 November of the year -4713 is a Friday, with week day -2 instead of 5.
  lemma EarlyWeekDay()
    ensures Number(YearMonthDay(-4713, 11, 21)) == -3 && InRange(YearMonthDay(-4713, 11, 21))
    ensures WeekDay(-3) == -2 && DayOfWeek(-3) == 5
  {
    var d := YearMonthDay(-4713, 11, 21);
    assert YearStart(87) == 31776;
    NumberParts(d);
  }

  // ---------------------------------------------------------------- 32-bit arithmetic

  // Every value that the decoder computes fits in 32 bits.
  ghost predicate DecodesIn32Bits(j: int) {
    var a := j + 32044;
    var b := CInt.Div(4 * a + 3, 146097);
    var c := a - CInt.Div(b * 146097, 4);
    var d := CInt.Div(4 * c + 3, 1461);
    var e := c - CInt.Div(1461 * d, 4);
    var m := CInt.Div(5 * e + 2, 153);
    && CInt.FitsInt32(a) && CInt.FitsInt32(4 * a) && CInt.FitsInt32(4 * a + 3) && CInt.FitsInt32(b * 146097) && CInt.FitsInt32(c)
    && CInt.FitsInt32(4 * c) && CInt.FitsInt32(4 * c + 3) && CInt.FitsInt32(1461 * d) && CInt.FitsInt32(e)
    && CInt.FitsInt32(5 * e + 2) && CInt.FitsInt32(153 * m + 2) && CInt.FitsInt32(b * 100 + d)
  }

  // The decoder is safe exactly up to day 536838867.
  lemma DecoderRange(j: int)
    requires j >= -32044
    ensures DecodesIn32Bits(j) <==> j <= 536838867
  {
    var a := j + 32044;
    var b := (4 * a + 3) / 146097;
    var c := a - 146097 * b / 4;
    var d := (4 * c + 3) / 1461;
    Century(a, b, c);
    YearInCentury(c, d, c - 1461 * d / 4);
    MonthInYear(c - 1461 * d / 4, (5 * (c - 1461 * d / 4) + 2) / 153);
    if j <= 536838867 {
      assert b * 146097 <= 4 * a + 3;
    }
  }

  // The first day number it fails on.
  lemma FirstOverflow()
    ensures !DecodesIn32Bits(536838868)
  {
    DecoderRange(536838868);
    hide DecodesIn32Bits;
  }
}
