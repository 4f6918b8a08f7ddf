/**
 * Calendar notions shared by the store, the chart and the validator.
 *
 * Dates are day numbers: the number of days since 1970-01-01, which is day 0
 * and a Thursday. An ISO 8601 week (`YYYY-Www`) is represented by the day
 * number of its Monday, which determines it. Date strings are ISO 8601
 * calendar dates in extended format (`YYYY-MM-DD`); the lemma
 * `IsoDateOrderIsChronological` shows that comparing such strings with `<`,
 * as the application does, orders them exactly as their day numbers.
 */
module Calendar {
  import opened Js

  /** The ISO 8601 weekday of a day, counted from 0 (Monday) to 6 (Sunday). */
  function Weekday(day: int): (w: int)
    ensures 0 <= w < 7
  {
    (day + 3) % 7
  }

  /** The day number of a Monday: the first day of an ISO 8601 week. */
  type Monday = d: int | (d + 3) % 7 == 0 witness 4

  /** moment's `'ddd'` format (English locale), indexed by weekday. */
  const ShortDayNames: seq<string> := ["Mon", "Tue", "Wed", "Thu", "Fri", "Sat", "Sun"]

  function DayName(day: int): string
  {
    ShortDayNames[Weekday(day)]
  }

  lemma WeekdayAfterMonday(monday: Monday, i: int)
    requires 0 <= i < 7
    ensures Weekday(monday + i) == i
  {
    var q := (monday + 3) / 7;
    assert monday + i + 3 == 7 * q + i;
  }

  lemma ShiftByWeeksKeepsMonday(monday: Monday, weeks: int)
    ensures (monday + 7 * weeks + 3) % 7 == 0
  {
    var q := (monday + 3) / 7;
    assert monday + 7 * weeks + 3 == 7 * (q + weeks);
  }

  // ---------------------------------------------------------------------
  // Calendar dates

  predicate IsLeapYear(year: int)
  {
    year % 4 == 0 && (year % 100 != 0 || year % 400 == 0)
  }

  function YearLength(year: int): int
  {
    if IsLeapYear(year) then 366 else 365
  }

  function DaysInMonth(year: int, month: int): int
    requires 1 <= month <= 12
  {
    if month == 2 then (if IsLeapYear(year) then 29 else 28)
    else if month == 4 || month == 6 || month == 9 || month == 11 then 30
    else 31
  }

  predicate IsValidDate(year: int, month: int, day: int)
  {
    1 <= month <= 12 && 1 <= day <= DaysInMonth(year, month)
  }

  /** The number of days of `year` before the first of `month`. */
  function DaysBeforeMonth(year: int, month: int): int
    requires 1 <= month <= 13
  {
    if month == 1 then 0 else DaysBeforeMonth(year, month - 1) + DaysInMonth(year, month - 1)
  }

  /** The day number of the first of January of `year`. */
  function DaysBeforeYear(year: int): int
    decreases if year < 1970 then 1970 - year else year - 1970
  {
    if year == 1970 then 0
    else if year > 1970 then DaysBeforeYear(year - 1) + YearLength(year - 1)
    else DaysBeforeYear(year + 1) - YearLength(year)
  }

  function DayNumber(year: int, month: int, day: int): int
    requires 1 <= month <= 12
  {
    DaysBeforeYear(year) + DaysBeforeMonth(year, month) + day - 1
  }

  lemma DaysBeforeYearStep(year: int)
    ensures DaysBeforeYear(year + 1) == DaysBeforeYear(year) + YearLength(year)
  {
  }

  lemma {:induction false} DaysBeforeYearMonotone(y1: int, y2: int)
    requires y1 <= y2
    ensures DaysBeforeYear(y1) + 365 * (y2 - y1) <= DaysBeforeYear(y2)
    decreases y2 - y1
  {
    if y1 < y2 {
      DaysBeforeYearMonotone(y1, y2 - 1);
      DaysBeforeYearStep(y2 - 1);
    }
  }

  lemma {:induction false} DaysBeforeMonthMonotone(year: int, m1: int, m2: int)
    requires 1 <= m1 <= m2 <= 13
    ensures DaysBeforeMonth(year, m1) <= DaysBeforeMonth(year, m2)
    decreases m2 - m1
  {
    if m1 < m2 {
      DaysBeforeMonthMonotone(year, m1, m2 - 1);
    }
  }

  lemma DaysBeforeMonthWholeYear(year: int)
    ensures DaysBeforeMonth(year, 13) == YearLength(year)
  {
    var feb := DaysInMonth(year, 2);
    assert DaysBeforeMonth(year, 2) == 31;
    assert DaysBeforeMonth(year, 3) == 31 + feb;
    assert DaysBeforeMonth(year, 4) == 62 + feb;
    assert DaysBeforeMonth(year, 5) == 92 + feb;
    assert DaysBeforeMonth(year, 6) == 123 + feb;
    assert DaysBeforeMonth(year, 7) == 153 + feb;
    assert DaysBeforeMonth(year, 8) == 184 + feb;
    assert DaysBeforeMonth(year, 9) == 215 + feb;
    assert DaysBeforeMonth(year, 10) == 245 + feb;
    assert DaysBeforeMonth(year, 11) == 276 + feb;
    assert DaysBeforeMonth(year, 12) == 306 + feb;
  }

  /** Later calendar dates have larger day numbers. */
  lemma {:induction false} DayNumberMonotone(y1: int, m1: int, d1: int, y2: int, m2: int, d2: int)
    requires IsValidDate(y1, m1, d1) && IsValidDate(y2, m2, d2)
    requires y1 < y2 || (y1 == y2 && (m1 < m2 || (m1 == m2 && d1 < d2)))
    ensures DayNumber(y1, m1, d1) < DayNumber(y2, m2, d2)
  {
    DaysBeforeMonthMonotone(y2, 1, m2);
    if y1 < y2 {
      assert DaysBeforeMonth(y1, m1 + 1) == DaysBeforeMonth(y1, m1) + DaysInMonth(y1, m1);
      DaysBeforeMonthMonotone(y1, m1 + 1, 13);
      DaysBeforeMonthWholeYear(y1);
      DaysBeforeYearStep(y1);
      DaysBeforeYearMonotone(y1 + 1, y2);
    } else if m1 < m2 {
      DaysBeforeMonthMonotone(y1, m1 + 1, m2);
    }
  }

  // ---------------------------------------------------------------------
  // ISO 8601 date strings

  predicate IsDigit(c: char)
  {
    '0' <= c <= '9'
  }

  predicate AllDigits(s: string)
  {
    forall i :: 0 <= i < |s| ==> IsDigit(s[i])
  }

  /** The number a string of decimal digits denotes. */
  function DigitsValue(s: string): int
    requires AllDigits(s)
  {
    if |s| == 0 then 0
    else (s[0] as int - '0' as int) * Pow10(|s| - 1) + DigitsValue(s[1..])
  }

  function Pow10(n: nat): (p: int)
    ensures p > 0
  {
    if n == 0 then 1 else 10 * Pow10(n - 1)
  }

  /** The shape `YYYY-MM-DD`, before any check of the values. */
  predicate IsDateShape(s: string)
  {
    |s| == 10 && s[4] == '-' && s[7] == '-'
    && AllDigits(s[..4]) && AllDigits(s[5..7]) && AllDigits(s[8..])
  }

  function YearOf(s: string): int
    requires IsDateShape(s)
  {
    DigitsValue(s[..4])
  }

  function MonthOf(s: string): int
    requires IsDateShape(s)
  {
    DigitsValue(s[5..7])
  }

  function DayOf(s: string): int
    requires IsDateShape(s)
  {
    DigitsValue(s[8..])
  }

  /**
   * A strict ISO 8601 calendar date in extended format: the `YYYY-MM-DD`
   * shape and a day that exists in that month of that year.
   */
  predicate IsIsoDate(s: string)
  {
    IsDateShape(s) && IsValidDate(YearOf(s), MonthOf(s), DayOf(s))
  }

  function IsoDateDayNumber(s: string): int
    requires IsIsoDate(s)
  {
    DayNumber(YearOf(s), MonthOf(s), DayOf(s))
  }

  lemma {:induction false} DigitsValueBound(s: string)
    requires AllDigits(s)
    ensures 0 <= DigitsValue(s) < Pow10(|s|)
  {
    if |s| > 0 {
      DigitsValueBound(s[1..]);
      var d := s[0] as int - '0' as int;
      var p := Pow10(|s| - 1);
      assert d * p <= 9 * p;
    }
  }

  lemma MulMonotone(a: int, b: int, p: int)
    requires a <= b && 0 <= p
    ensures a * p <= b * p
  {
  }

  lemma LeadingDigitDecides(da: int, db: int, ra: int, rb: int, p: int)
    requires da < db && 0 <= ra < p && 0 <= rb
    ensures da * p + ra < db * p + rb
  {
    MulMonotone(da + 1, db, p);
    assert (da + 1) * p == da * p + p;
  }

  /** On digit strings of one length, code point order is the order of the numbers they denote. */
  lemma {:induction false} DigitStringOrder(a: string, b: string)
    requires AllDigits(a) && AllDigits(b) && |a| == |b|
    ensures CodePointLess(a, b) <==> DigitsValue(a) < DigitsValue(b)
    ensures a == b <==> DigitsValue(a) == DigitsValue(b)
  {
    if |a| > 0 {
      DigitStringOrder(a[1..], b[1..]);
      DigitsValueBound(a[1..]);
      DigitsValueBound(b[1..]);
      var da, db := a[0] as int - '0' as int, b[0] as int - '0' as int;
      var p := Pow10(|a| - 1);
      assert DigitsValue(a) == da * p + DigitsValue(a[1..]);
      assert DigitsValue(b) == db * p + DigitsValue(b[1..]);
      if da < db {
        LeadingDigitDecides(da, db, DigitsValue(a[1..]), DigitsValue(b[1..]), p);
      } else if db < da {
        LeadingDigitDecides(db, da, DigitsValue(b[1..]), DigitsValue(a[1..]), p);
      } else {
        assert a == [a[0]] + a[1..] && b == [b[0]] + b[1..];
      }
    }
  }

  /** Comparing two concatenations whose first parts have one length. */
  lemma {:induction false} CodePointLessConcat(a1: string, b1: string, a2: string, b2: string)
    requires |a1| == |a2|
    ensures CodePointLess(a1 + b1, a2 + b2) <==> CodePointLess(a1, a2) || (a1 == a2 && CodePointLess(b1, b2))
  {
    if |a1| == 0 {
      assert a1 + b1 == b1 && a2 + b2 == b2;
    } else {
      assert (a1 + b1)[1..] == a1[1..] + b1 && (a2 + b2)[1..] == a2[1..] + b2;
      CodePointLessConcat(a1[1..], b1, a2[1..], b2);
      if a1[0] == a2[0] && a1[1..] == a2[1..] {
        assert a1 == [a1[0]] + a1[1..] && a2 == [a2[0]] + a2[1..];
      }
    }
  }

  /** Date strings are made of digits and hyphens, each a single UTF-16 code unit. */
  lemma DateShapeIsBmp(s: string)
    requires IsDateShape(s)
    ensures Bmp(s)
  {
    forall k | 0 <= k < |s| ensures s[k] as int < 0x10000 {
      if k < 4 {
        assert s[k] == s[..4][k];
      } else if 5 <= k < 7 {
        assert s[k] == s[5..7][k - 5];
      } else if 8 <= k {
        assert s[k] == s[8..][k - 8];
      }
    }
  }

  /** `<` on date strings is the lexicographic order of (year, month, day). */
  lemma IsoDateStringOrder(s1: string, s2: string)
    requires IsDateShape(s1) && IsDateShape(s2)
    ensures StrLess(s1, s2) <==>
      YearOf(s1) < YearOf(s2)
      || (YearOf(s1) == YearOf(s2)
          && (MonthOf(s1) < MonthOf(s2) || (MonthOf(s1) == MonthOf(s2) && DayOf(s1) < DayOf(s2))))
  {
    DateShapeIsBmp(s1);
    DateShapeIsBmp(s2);
    BmpOrderAgrees(s1, s2);
    DateCodePointOrder(s1, s2);
  }

  lemma SplitAt(s: string, i: int, j: int)
    requires 0 <= i <= j <= |s|
    ensures s[i..] == s[i..j] + s[j..]
  {
  }

  /** The code points of two date strings compare as (year, month, day). */
  lemma DateCodePointOrder(s1: string, s2: string)
    requires IsDateShape(s1) && IsDateShape(s2)
    ensures CodePointLess(s1, s2) <==>
      YearOf(s1) < YearOf(s2)
      || (YearOf(s1) == YearOf(s2)
          && (MonthOf(s1) < MonthOf(s2) || (MonthOf(s1) == MonthOf(s2) && DayOf(s1) < DayOf(s2))))
  {
    SplitAt(s1, 0, 4);
    SplitAt(s2, 0, 4);
    CodePointLessConcat(s1[0..4], s1[4..], s2[0..4], s2[4..]);
    DigitStringOrder(s1[..4], s2[..4]);
    SplitAt(s1, 4, 5);
    SplitAt(s2, 4, 5);
    assert s1[4..5] == s2[4..5] == "-";
    CodePointLessConcat(s1[4..5], s1[5..], s2[4..5], s2[5..]);
    SplitAt(s1, 5, 7);
    SplitAt(s2, 5, 7);
    CodePointLessConcat(s1[5..7], s1[7..], s2[5..7], s2[7..]);
    DigitStringOrder(s1[5..7], s2[5..7]);
    SplitAt(s1, 7, 8);
    SplitAt(s2, 7, 8);
    assert s1[7..8] == s2[7..8] == "-";
    CodePointLessConcat(s1[7..8], s1[8..], s2[7..8], s2[8..]);
    DigitStringOrder(s1[8..], s2[8..]);
  }

  /**
   * Zero-padded ISO date strings compare with `<` as their dates do in time,
   * which is what lets the application compare dates as strings.
   */
  lemma IsoDateOrderIsChronological(s1: string, s2: string)
    requires IsIsoDate(s1) && IsIsoDate(s2)
    ensures StrLess(s1, s2) <==> IsoDateDayNumber(s1) < IsoDateDayNumber(s2)
  {
    IsoDateStringOrder(s1, s2);
    IsoDateStringOrder(s2, s1);
    var y1, m1, d1 := YearOf(s1), MonthOf(s1), DayOf(s1);
    var y2, m2, d2 := YearOf(s2), MonthOf(s2), DayOf(s2);
    if y1 < y2 || (y1 == y2 && (m1 < m2 || (m1 == m2 && d1 < d2))) {
      DayNumberMonotone(y1, m1, d1, y2, m2, d2);
    } else if y2 < y1 || (y1 == y2 && (m2 < m1 || (m1 == m2 && d2 < d1))) {
      DayNumberMonotone(y2, m2, d2, y1, m1, d1);
      StrLessAsymmetric(s2, s1);
    } else {
      assert y1 == y2 && m1 == m2 && d1 == d2;
      StrLessIrreflexive(s1);
      DigitStringOrder(s1[..4], s2[..4]);
      DigitStringOrder(s1[5..7], s2[5..7]);
      DigitStringOrder(s1[8..], s2[8..]);
      assert s1 == s1[..4] + "-" + s1[5..7] + "-" + s1[8..];
      assert s2 == s2[..4] + "-" + s2[5..7] + "-" + s2[8..];
    }
  }

  /** Every four years from 1970 to 2098 hold exactly one leap year. */
  lemma {:induction false} QuadrenniaFrom1970(k: nat)
    requires k <= 32
    ensures DaysBeforeYear(1970 + 4 * k) == 1461 * k
  {
    if k > 0 {
      var y := 1970 + 4 * (k - 1);
      QuadrenniaFrom1970(k - 1);
      DaysBeforeYearStep(y);
      DaysBeforeYearStep(y + 1);
      DaysBeforeYearStep(y + 2);
      DaysBeforeYearStep(y + 3);
      assert IsLeapYear(y + 2) && !IsLeapYear(y) && !IsLeapYear(y + 1) && !IsLeapYear(y + 3);
    }
  }

  /** The string "2021-02-02" has the date shape and reads as year 2021, month 2, day 2. */
  lemma ExampleDateFields()
    ensures IsDateShape("2021-02-02")
    ensures YearOf("2021-02-02") == 2021 && MonthOf("2021-02-02") == 2 && DayOf("2021-02-02") == 2
  {
    var s := "2021-02-02";
    assert s[0] == '2' && s[1] == '0' && s[2] == '2' && s[3] == '1' && s[4] == '-';
    assert s[5] == '0' && s[6] == '2' && s[7] == '-' && s[8] == '0' && s[9] == '2';
    assert s[..4] == "2021" && s[5..7] == "02" && s[8..] == "02";
    assert "2021"[1..] == "021" && "021"[1..] == "21" && "21"[1..] == "1" && "1"[1..] == "";
    assert "02"[1..] == "2" && "2"[1..] == "";
    assert Pow10(0) == 1 && Pow10(1) == 10 && Pow10(2) == 100 && Pow10(3) == 1000;
    assert DigitsValue("1") == 1;
    assert DigitsValue("21") == 21;
    assert DigitsValue("021") == 21;
    assert DigitsValue("2021") == 2021;
    assert DigitsValue("2") == 2;
    assert DigitsValue("02") == 2;
  }

  /** The 2nd of February 2021 is day 18660, a Tuesday, whose week starts on day 18659. */
  lemma ExampleDate()
    ensures IsIsoDate("2021-02-02") && IsoDateDayNumber("2021-02-02") == 18660
    ensures Weekday(18660) == 1 && Weekday(18659) == 0
  {
    ExampleDateFields();
    assert IsValidDate(2021, 2, 2);
    QuadrenniaFrom1970(12);
    DaysBeforeYearStep(2018);
    DaysBeforeYearStep(2019);
    DaysBeforeYearStep(2020);
    assert DaysBeforeYear(2021) == 18628;
    assert DaysBeforeMonth(2021, 2) == 31;
  }
}
