/**
 * The Julian day of a proleptic Gregorian civil date and time, after
 * Meeus' algorithm as `gregorianToJD` computes it: January and February
 * count as months 13 and 14 of the previous year, and the Gregorian
 * century correction is `B = 2 - A + floor(A / 4)` with `A = floor(year / 100)`.
 *
 * The integer part, `DayNumber`, is the Julian day number of the civil
 * date (the Julian day at noon); `GregorianToJD` adds the time of day.
 */
module JulianDay {

  /** The proleptic Gregorian leap-year rule. */
  predicate IsLeapYear(y: int)
  {
    y % 4 == 0 && (y % 100 != 0 || y % 400 == 0)
  }

  /** Days in month `m` of year `y`. */
  function DaysInMonth(y: int, m: int): (r: int)
    requires 1 <= m <= 12
    ensures 28 <= r <= 31
    ensures m == 2 ==> (r == 29 <==> IsLeapYear(y))
  {
    if m == 2 then (if IsLeapYear(y) then 29 else 28)
    else if m == 4 || m == 6 || m == 9 || m == 11 then 30
    else 31
  }

  /** `Math.floor(365.25 * n)`. */
  function YearTerm(n: int): int
  {
    (365.25 * (n as real)).Floor
  }

  /** `Math.floor(30.6001 * k)`. */
  function MonthTerm(k: int): int
  {
    (30.6001 * (k as real)).Floor
  }

  /** The year term counts 365 days a year plus one every fourth year. */
  lemma YearTermClosedForm(n: int)
    ensures YearTerm(n) == 365 * n + n / 4
  {
    var q, r := n / 4, n % 4;
    assert n == 4 * q + r;
    assert 365.25 * (n as real) == ((365 * n + q) as real) + (r as real) / 4.0;
  }

  /**
   * For the month numbers Meeus uses, the 0.0001 in 30.6001 never crosses
   * an integer: the month term is `floor(153 * k / 5)`.
   */
  lemma MonthTermClosedForm(k: int)
    requires 0 <= k < 2000
    ensures MonthTerm(k) == 153 * k / 5
  {
    var q, r := (153 * k) / 5, (153 * k) % 5;
    assert 153 * k == 5 * q + r;
    assert 30.6001 * (k as real) == (q as real) + (r as real) / 5.0 + (k as real) / 10000.0;
  }

  /** The century correction `B = 2 - A + floor(A / 4)`, `A = floor(year / 100)`. */
  function CenturyCorrection(year: int): int
  {
    var a := year / 100;
    2 - a + a / 4
  }

  /**
   * The integer part of `gregorianToJD(y, m, d, 12)`: the Julian day number
   * of the civil date. Day numbers outside the month are allowed and count
   * on from its first day, as `Date` does with an overflowing day.
   */
  function DayNumber(y: int, m: int, d: int): (r: int)
    requires 1 <= m <= 12
    ensures r == CivilDayNumber(y, m, d)
  {
    var year := if m <= 2 then y - 1 else y;
    var month := if m <= 2 then m + 12 else m;
    YearTermClosedForm(year + 4716);
    MonthTermClosedForm(month + 1);
    DayNumberShift(year, month);
    YearTerm(year + 4716) + MonthTerm(month + 1) + d + CenturyCorrection(year) - 1524
  }

  /**
   * The Julian day number in whole-day arithmetic, counting from March of
   * year -4800: 365 days a year, the Gregorian leap days (every fourth
   * year, not every hundredth, again every four-hundredth), and
   * `(153 k + 2) / 5` days for the `k` months since March.
   */
  function CivilDayNumber(y: int, m: int, d: int): int
    requires 1 <= m <= 12
  {
    var a := if m <= 2 then 1 else 0;
    var year := y + 4800 - a;
    var k := m + 12 * a - 3;
    d + (153 * k + 2) / 5 + 365 * year + year / 4 - year / 100 + year / 400 - 32045
  }

  /** Meeus' terms in closed form differ from the civil count by a constant. */
  lemma DayNumberShift(year: int, month: int)
    requires 3 <= month <= 14
    ensures 365 * (year + 4716) + (year + 4716) / 4 + 153 * (month + 1) / 5 + 2 - year / 100 + year / 100 / 4 - 1524 ==
      (153 * (month - 3) + 2) / 5 + 365 * (year + 4800) + (year + 4800) / 4 - (year + 4800) / 100 + (year + 4800) / 400 - 32045
  {
    assert (year + 4716) / 4 == year / 4 + 1179;
    assert (year + 4800) / 4 == year / 4 + 1200;
    assert (year + 4800) / 100 == year / 100 + 48;
    assert (year + 4800) / 400 == year / 400 + 12;
    assert year / 100 / 4 == year / 400;
    assert 153 * (month + 1) / 5 == (153 * (month - 3) + 2) / 5 + 122;
  }

  /**
   * `gregorianToJD(y, m, d, h, mi, se)`: the Julian day of the instant, in
   * exact arithmetic. Within the civil day it rounds (by `floor(jd + 0.5)`)
   * to the day number of the civil date.
   */
  function GregorianToJD(y: int, m: int, d: int, h: real, mi: real, se: real): (r: real)
    requires 1 <= m <= 12
    ensures 0.0 <= h * 3600.0 + mi * 60.0 + se < 86400.0 ==> (r + 0.5).Floor == DayNumber(y, m, d)
  {
    (DayNumber(y, m, d) as real) - 0.5 + (h + mi / 60.0 + se / 3600.0) / 24.0
  }

  /** The civil date following `(y, m, d)`. */
  function NextDate(y: int, m: int, d: int): (r: (int, int, int))
    requires 1 <= m <= 12 && 1 <= d <= DaysInMonth(y, m)
    ensures 1 <= r.1 <= 12 && 1 <= r.2 <= DaysInMonth(r.0, r.1)
  {
    if d < DaysInMonth(y, m) then (y, m, d + 1)
    else if m < 12 then (y, m + 1, 1)
    else (y + 1, 1, 1)
  }

  /**
   * The day number counts civil days without gap or overlap: the next
   * date's number is one more, across month and year ends and leap days.
   */
  lemma NextDateIsNextDay(y: int, m: int, d: int)
    requires 1 <= m <= 12 && 1 <= d <= DaysInMonth(y, m)
    ensures var (y2, m2, d2) := NextDate(y, m, d); DayNumber(y2, m2, d2) == DayNumber(y, m, d) + 1
  {
    if d == DaysInMonth(y, m) {
      if m == 2 {
        FebruaryEnd(y);
      } else if m == 12 {
        DecemberEnd(y);
      } else {
        MonthEnd(y, m);
      }
    }
  }

  /** The first of the next month follows the last day of a month other than February or December. */
  lemma MonthEnd(y: int, m: int)
    requires 1 <= m < 12 && m != 2
    ensures DayNumber(y, m + 1, 1) == DayNumber(y, m, DaysInMonth(y, m)) + 1
  {
    var k := if m == 1 then 10 else m - 3;
    assert (153 * (k + 1) + 2) / 5 - (153 * k + 2) / 5 == DaysInMonth(y, m);
  }

  /** January 1 follows December 31. */
  lemma DecemberEnd(y: int)
    ensures DayNumber(y + 1, 1, 1) == DayNumber(y, 12, 31) + 1
  {
  }

  /** March 1 follows the last day of February, in every year. */
  lemma FebruaryEnd(y: int)
    ensures DayNumber(y, 3, 1) == DayNumber(y, 2, DaysInMonth(y, 2)) + 1
  {
    FebruaryGap(y, DaysInMonth(y, 2));
    LeapDaySteps(y);
  }

  /**
   * Into year `y` (counted from -4800) the three quotients step by one
   * exactly when `y` is a multiple of 4, 100 and 400 respectively, which
   * adds up to February's extra day.
   */
  lemma LeapDaySteps(y: int)
    ensures var x := y + 4799;
      ((x + 1) / 4 - x / 4) - ((x + 1) / 100 - x / 100) + ((x + 1) / 400 - x / 400) == DaysInMonth(y, 2) - 28
  {
    var x := y + 4799;
    QuotientStep(x, 4);
    QuotientStep(x, 100);
    QuotientStep(x, 400);
    ShiftedResidue(y, 4);
    ShiftedResidue(y, 100);
    ShiftedResidue(y, 400);
    if y % 4 != 0 {
      assert y % 100 != 0 && y % 400 != 0;
    } else if y % 100 != 0 {
      assert y % 400 != 0;
    }
  }

  /** The days from February `d` to March 1: 29 - d, plus the leap-day steps into year `y`. */
  lemma FebruaryGap(y: int, d: int)
    ensures var x := y + 4799;
      DayNumber(y, 3, 1) - DayNumber(y, 2, d) ==
      29 - d + ((x + 1) / 4 - x / 4) - ((x + 1) / 100 - x / 100) + ((x + 1) / 400 - x / 400)
  {
  }

  /** The quotient by `q` grows by one exactly into a multiple of `q`. */
  lemma QuotientStep(x: int, q: int)
    requires q == 4 || q == 100 || q == 400
    ensures (x + 1) / q - x / q == if (x + 1) % q == 0 then 1 else 0
  {
  }

  /** 4800 is a multiple of 4, 100 and 400, so shifting by it keeps the residues. */
  lemma ShiftedResidue(y: int, q: int)
    requires q == 4 || q == 100 || q == 400
    ensures (y + 4800) % q == y % q
  {
    var t, u := y / q, y % q;
    assert y == q * t + u;
    assert y + 4800 == q * (t + 4800 / q) + u;
  }

  /** Noon of 2000-01-01 is Julian day 2451545 (the J2000.0 epoch). */
  lemma J2000()
    ensures DayNumber(2000, 1, 1) == 2451545
    ensures GregorianToJD(2000, 1, 1, 12.0, 0.0, 0.0) == 2451545.0
  {
    YearTermClosedForm(1999 + 4716);
    MonthTermClosedForm(14);
  }
}
