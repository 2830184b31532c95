/**
 * The four pillars of a birth moment (year, month, day and hour), each a
 * sexagenary code, and `manseCalc`, which assembles them.
 *
 * The solar longitude at birth and the Julian day of the year's Lichun
 * crossing (the sun at 315 degrees) are inputs: computing them takes the
 * trigonometric sun model and a bisection, which are not part of this model.
 */
module Pillars {
  import opened Wrappers
  import opened JsNumbers
  import opened Sexagenary
  import opened JulianDay

  // ---------------------------------------------------------------- year

  /**
   * The year the year pillar counts from: the civil year when the birth is
   * at or after its Lichun crossing, the previous year before it.
   */
  function EffectiveYear(jdUtc: real, lichun: real, civilYear: int): int
  {
    if jdUtc >= lichun then civilYear else civilYear - 1
  }

  /**
   * `yearPillar` as written: `ganzhiFromIndex((y - 1984) % 60)` with the
   * JavaScript remainder, which is negative for years before 1984.
   */
  function YearPillarAsWritten(jdUtc: real, lichun: real, civilYear: int): (r: Option<string>)
    ensures EffectiveYear(jdUtc, lichun, civilYear) >= 1984 ==> r.Some?
    ensures r.Some? ==> r == YearPillar(jdUtc, lichun, civilYear)
  {
    var x := EffectiveYear(jdUtc, lichun, civilYear) - 1984;
    var j := YearIndexAsWritten(jdUtc, lichun, civilYear);
    if j < 0 then
      NegativeIndex(j);
      GanzhiFromIndex(j)
    else
      NonNegativeRemainder(x);
      assert YearPillar(jdUtc, lichun, civilYear) == GanzhiFromIndex(j);
      GanzhiFromIndex(j)
  }

  /** The cycle index of `yearPillar` as written: `(y - 1984) % 60`, a JavaScript remainder. */
  function YearIndexAsWritten(jdUtc: real, lichun: real, civilYear: int): int
  {
    JsRem(EffectiveYear(jdUtc, lichun, civilYear) - 1984, 60)
  }

  /** A JavaScript remainder by 60 that is not negative is the Euclidean one. */
  lemma NonNegativeRemainder(x: int)
    requires JsRem(x, 60) >= 0
    ensures JsRem(x, 60) == x % 60
  {
    if x < 0 {
      assert (-x) % 60 == 0;
      assert -x == 60 * ((-x) / 60);
      assert x == 60 * (-((-x) / 60));
    }
  }

  /**
   * The year pillar counted from 1984 (甲子) with a non-negative remainder:
   * always a code, whose stem is `(y - 4) mod 10` and branch `(y - 4) mod 12`
   * for the effective year `y`.
   */
  function YearPillar(jdUtc: real, lichun: real, civilYear: int): (r: Option<string>)
    ensures r.Some?
    ensures jdUtc >= lichun ==>
      StemIndex(r.value) == (civilYear - 4) % 10 && BranchIndex(r.value) == (civilYear - 4) % 12
    ensures jdUtc < lichun ==>
      StemIndex(r.value) == (civilYear - 5) % 10 && BranchIndex(r.value) == (civilYear - 5) % 12
  {
    var y := EffectiveYear(jdUtc, lichun, civilYear);
    var i := (y - 1984) % 60;
    CycleResidues(y - 1984, 4);
    GanzhiFromIndex(i)
  }

  /**
   * Reducing modulo 60 keeps the residues modulo 10 and 12; 1980 is a
   * multiple of both, so an index counted from 1984 has the residues of `y - 4`.
   */
  lemma CycleResidues(x: int, c: int)
    requires c == 4
    ensures (x % 60) % 10 == (x + 1984 - c) % 10
    ensures (x % 60) % 12 == (x + 1984 - c) % 12
  {
    var q := x / 60;
    assert x == 60 * q + x % 60;
    assert x + 1984 - c == (x % 60) + 10 * (6 * q + 198);
    assert x + 1984 - c == (x % 60) + 12 * (5 * q + 165);
  }

  /** From 1984 on, the code as written is the corrected one. */
  lemma YearPillarAgreesFrom1984(jdUtc: real, lichun: real, civilYear: int)
    requires EffectiveYear(jdUtc, lichun, civilYear) >= 1984
    ensures YearPillarAsWritten(jdUtc, lichun, civilYear) == YearPillar(jdUtc, lichun, civilYear)
  {
  }

  /**
   * Before 1984 the code as written has no pillar except in the years
   * 1924, 1864, ... that are whole cycles before 1984.
   */
  lemma YearPillarAsWrittenBefore1984(jdUtc: real, lichun: real, civilYear: int)
    requires EffectiveYear(jdUtc, lichun, civilYear) < 1984
    ensures YearPillarAsWritten(jdUtc, lichun, civilYear).Some? <==>
      (1984 - EffectiveYear(jdUtc, lichun, civilYear)) % 60 == 0
  {
    var x := EffectiveYear(jdUtc, lichun, civilYear) - 1984;
    var j := JsRem(x, 60);
    if j < 0 {
      NegativeIndex(j);
      assert j % 60 == 0 <==> j == -60 || j == 0;
    }
  }

  /** A birth in 1983 after Lichun: 癸亥 by the cycle, nothing as written. */
  lemma YearPillar1983()
    ensures YearPillarAsWritten(0.0, 0.0, 1983).None?
    ensures YearPillar(0.0, 0.0, 1983) == Some("癸亥")
  {
    YearPillarAsWrittenBefore1984(0.0, 0.0, 1983);
    assert (1983 - 1984) % 60 == 59;
    assert [Stems[9], Branches[11]] == "癸亥";
  }

  // --------------------------------------------------------------- month

  /** `STEM_START_FROM_YEAR_STEM`: the stem of the 寅 month for each year stem. */
  const StemStartFromYearStem: map<char, char> := map[
    '甲' := '丙', '己' := '丙',
    '乙' := '戊', '庚' := '戊',
    '丙' := '庚', '辛' := '庚',
    '丁' := '壬', '壬' := '壬',
    '戊' := '甲', '癸' := '甲']

  /**
   * `termIndexFromLongitude` (also inlined in `monthPillarFromLongitude`):
   * the 30-degree sector of the solar longitude counted from 315 degrees.
   */
  function TermIndexFromLongitude(lambda: real): (r: int)
    ensures 0.0 <= lambda < 360.0 ==> 0 <= r < 12
    ensures 315.0 <= lambda < 360.0 ==> 30.0 * (r as real) <= lambda - 315.0 < 30.0 * (r as real) + 30.0
    ensures 0.0 <= lambda < 315.0 ==> 30.0 * (r as real) <= lambda + 45.0 < 30.0 * (r as real) + 30.0
  {
    (JsDegRem(lambda - 315.0 + 360.0) / 30.0).Floor
  }

  /**
   * `TEN_STEMS.indexOf(STEM_START_FROM_YEAR_STEM[yearGz[0]])`: -1 when the
   * year code's first glyph is not a stem.
   */
  function MonthStemStart(yearGz: string): (r: int)
    ensures StemIndex(yearGz) >= 0 ==> r == (2 * (StemIndex(yearGz) % 5) + 2) % 10
    ensures StemIndex(yearGz) < 0 ==> r == -1
  {
    if |yearGz| >= 1 && yearGz[0] in StemStartFromYearStem then
      StemStartRule(StemIndex(yearGz));
      StemIndexOf(StemStartFromYearStem[yearGz[0]])
    else -1
  }

  /** The table gives stem `2 (k mod 5) + 2` to the 寅 month of a year with stem `k`. */
  lemma StemStartRule(k: int)
    requires 0 <= k < 10
    ensures Stems[k] in StemStartFromYearStem
    ensures StemIndexOf(StemStartFromYearStem[Stems[k]]) == (2 * (k % 5) + 2) % 10
  {
  }

  /**
   * The month code for a year code and a sector (`stem + branch` of
   * `monthPillarFromLongitude`): the branch is the sector's solar month,
   * 寅 from 315 degrees on, and the stem is counted on from the year stem's
   * 寅-month stem.
   */
  function MonthCode(yearGz: string, mIdx: int): (r: Option<string>)
    ensures 0 <= mIdx < 12 && StemIndex(yearGz) >= 0 ==>
      r.Some? && |r.value| == 2 && ValidPair(StemIndex(r.value), BranchIndex(r.value)) &&
      BranchIndex(r.value) == (2 + mIdx) % 12 &&
      StemIndex(r.value) == (2 * (StemIndex(yearGz) % 5) + 2 + mIdx) % 10
  {
    var s0 := MonthStemStart(yearGz);
    MonthParity(StemIndex(yearGz), mIdx, s0);
    var st, br := JsRem(s0 + mIdx, 10), JsRem(2 + mIdx, 12);
    assert 0 <= mIdx < 12 && StemIndex(yearGz) >= 0 ==>
      st == (2 * (StemIndex(yearGz) % 5) + 2 + mIdx) % 10 && br == (2 + mIdx) % 12 && ValidPair(st, br);
    Pair(st, br)
  }

  /**
   * `monthPillarFromLongitude`: the month code of the longitude's sector;
   * for a longitude in [0, 360) and a year code with a valid stem it is a
   * valid code.
   */
  function MonthPillarFromLongitude(lambda: real, yearGz: string): (r: Option<string>)
    ensures 0.0 <= lambda < 360.0 && StemIndex(yearGz) >= 0 ==>
      r.Some? && ValidPair(StemIndex(r.value), BranchIndex(r.value)) &&
      BranchIndex(r.value) == (2 + TermIndexFromLongitude(lambda)) % 12
  {
    MonthCode(yearGz, TermIndexFromLongitude(lambda))
  }

  /**
   * The month stem counted on from the 寅-month stem `s0` and the sector's
   * branch form a valid pair, and the stem is `2 (k mod 5) + 2 + m` mod 10.
   */
  lemma MonthParity(k: int, m: int, s0: int)
    ensures 0 <= k < 10 && 0 <= m < 12 && s0 == (2 * (k % 5) + 2) % 10 ==>
      JsRem(s0 + m, 10) == (2 * (k % 5) + 2 + m) % 10 &&
      JsRem(2 + m, 12) == (2 + m) % 12 &&
      ValidPair(JsRem(s0 + m, 10), JsRem(2 + m, 12))
  {
    if 0 <= k < 10 && 0 <= m < 12 && s0 == (2 * (k % 5) + 2) % 10 {
      var a := 2 * (k % 5) + 2;
      ModAddLeft(a, m);
      EvenShiftParity(a, m);
      BranchParity(m);
    }
  }

  /** The solar month's branch `(2 + m) mod 12` has the parity of `m`. */
  lemma BranchParity(m: int)
    requires 0 <= m < 12
    ensures ((2 + m) % 12) % 2 == m % 2
  {
    if m < 10 {
      assert (2 + m) % 12 == 2 + m;
    } else {
      assert (2 + m) % 12 == m - 10;
    }
  }

  /** Reducing the first summand modulo 10 first does not change the sum's residue. */
  lemma ModAddLeft(a: int, t: int)
    requires a >= 0 && t >= 0
    ensures ((a % 10) + t) % 10 == (a + t) % 10
  {
    var q := a / 10;
    assert a + t == 10 * q + ((a % 10) + t);
  }

  /** Adding an even offset and reducing modulo 10 keeps the parity of `m`. */
  lemma EvenShiftParity(e: int, m: int)
    requires e >= 0 && e % 2 == 0 && m >= 0
    ensures ((e + m) % 10) % 2 == m % 2
  {
    var q := (e + m) / 10;
    assert e + m == 10 * q + (e + m) % 10;
  }

  /**
   * Within one year, two longitudes get the same month pillar exactly when
   * they fall in the same 30-degree sector.
   */
  lemma MonthPillarSameSector(lambda1: real, lambda2: real, yearGz: string)
    requires 0.0 <= lambda1 < 360.0 && 0.0 <= lambda2 < 360.0
    requires StemIndex(yearGz) >= 0
    ensures MonthPillarFromLongitude(lambda1, yearGz) == MonthPillarFromLongitude(lambda2, yearGz)
        <==> TermIndexFromLongitude(lambda1) == TermIndexFromLongitude(lambda2)
  {
    MonthCodeInjective(yearGz, TermIndexFromLongitude(lambda1), TermIndexFromLongitude(lambda2));
  }

  /** Distinct sectors of one year carry distinct month codes. */
  lemma MonthCodeInjective(yearGz: string, t1: int, t2: int)
    requires 0 <= t1 < 12 && 0 <= t2 < 12 && StemIndex(yearGz) >= 0
    ensures MonthCode(yearGz, t1) == MonthCode(yearGz, t2) <==> t1 == t2
  {
    if t1 != t2 {
      var r1, r2 := MonthCode(yearGz, t1), MonthCode(yearGz, t2);
      SectorBranchesDiffer(t1, t2);
      DistinctBranchDistinctCode(r1, r2);
    }
  }

  /** Distinct sectors have distinct solar-month branches. */
  lemma SectorBranchesDiffer(t1: int, t2: int)
    requires 0 <= t1 < 12 && 0 <= t2 < 12 && t1 != t2
    ensures (2 + t1) % 12 != (2 + t2) % 12
  {
  }

  /** Codes with different branches are different codes. */
  lemma DistinctBranchDistinctCode(a: Option<string>, b: Option<string>)
    requires a.Some? && b.Some? && BranchIndex(a.value) != BranchIndex(b.value)
    ensures a != b
  {
  }

  /** The month code of sector `t` spelled out from its stem and branch indices. */
  lemma MonthCodeIs(yearGz: string, t: int, st: int, br: int)
    requires 0 <= t < 12 && StemIndex(yearGz) >= 0
    requires st == (2 * (StemIndex(yearGz) % 5) + 2 + t) % 10 && br == (2 + t) % 12
    ensures MonthCode(yearGz, t) == Some([Stems[st], Branches[br]])
  {
    var c := MonthCode(yearGz, t).value;
    assert c == [c[0], c[1]];
  }

  /** In a 甲 year the month from Lichun (315 degrees) is 丙寅. */
  lemma MonthPillarAtLichun()
    ensures MonthPillarFromLongitude(315.0, "甲子") == Some("丙寅")
  {
    var y := "甲子";
    assert StemIndex(y) == 0 by { assert y[0] == '甲'; }
    assert TermIndexFromLongitude(315.0) == 0;
    MonthCodeIs(y, 0, 2, 2);
    assert [Stems[2], Branches[2]] == "丙寅";
  }

  /** Just before Lichun the same year code gives the previous month, 丁丑. */
  lemma MonthPillarBeforeLichun()
    ensures MonthPillarFromLongitude(314.5, "甲子") == Some("丁丑")
  {
    var y := "甲子";
    assert StemIndex(y) == 0 by { assert y[0] == '甲'; }
    assert TermIndexFromLongitude(314.5) == 11;
    MonthCodeIs(y, 11, 3, 1);
    assert [Stems[3], Branches[1]] == "丁丑";
  }

  // ----------------------------------------------------------------- day

  /** `DAY_EPOCH_CONST`. */
  const DayEpoch: int := 50

  /**
   * `dayPillarLocalMidnight` as written: the Julian day of local midnight
   * is computed with hour `-tzHours`, and the pillar index is
   * `floor(jd0 + 0.5) + 50`, reduced by the JavaScript remainder. For a
   * date after the start of the Julian period and a zone within a day of
   * Greenwich the index is not negative, so there is always a code.
   */
  function DayPillarAsWritten(y: int, m: int, d: int, tzHours: real): (r: Option<string>)
    requires 1 <= m <= 12
    ensures DayNumber(y, m, d) >= 1 && -24.0 < tzHours <= 24.0 ==> r.Some?
  {
    var jd0 := GregorianToJD(y, m, d, -tzHours, 0.0, 0.0);
    assert jd0 + 0.5 == (DayNumber(y, m, d) as real) - tzHours / 24.0;
    GanzhiFromIndex(DayIndexAsWritten(y, m, d, tzHours))
  }

  /** The cycle index of `dayPillarLocalMidnight` as written. */
  function DayIndexAsWritten(y: int, m: int, d: int, tzHours: real): int
    requires 1 <= m <= 12
  {
    JsRem((GregorianToJD(y, m, d, -tzHours, 0.0, 0.0) + 0.5).Floor + DayEpoch, 60)
  }

  /** The day's position in the 60-day cycle: 1900-01-01 is 10 (甲戌). */
  function DayIndex(y: int, m: int, d: int): (r: int)
    requires 1 <= m <= 12
    ensures 0 <= r < 60
  {
    (DayNumber(y, m, d) + DayEpoch - 1) % 60
  }

  /**
   * The day pillar of a civil date, the same in every time zone: the code of
   * its position in the 60-day cycle.
   */
  function DayPillar(y: int, m: int, d: int): (r: Option<string>)
    requires 1 <= m <= 12
    ensures r.Some?
    ensures StemIndex(r.value) == DayIndex(y, m, d) % 10 && BranchIndex(r.value) == DayIndex(y, m, d) % 12
  {
    GanzhiFromIndex(DayIndex(y, m, d))
  }

  /**
   * For zones east of Greenwich up to +24 h (Korea's +9 among them) the
   * code as written gives the corrected pillar.
   */
  lemma DayPillarEastAgrees(y: int, m: int, d: int, tzHours: real)
    requires 1 <= m <= 12 && DayNumber(y, m, d) >= 1
    requires 0.0 < tzHours <= 24.0
    ensures DayPillarAsWritten(y, m, d, tzHours) == DayPillar(y, m, d)
  {
    var n := DayNumber(y, m, d);
    var jd0 := GregorianToJD(y, m, d, -tzHours, 0.0, 0.0);
    assert jd0 + 0.5 == (n as real) - tzHours / 24.0;
    assert ((n - 1) as real) <= jd0 + 0.5 < n as real;
    assert (jd0 + 0.5).Floor == n - 1;
    assert JsRem(n - 1 + DayEpoch, 60) == DayIndex(y, m, d);
  }

  /**
   * In Greenwich and west of it (down to -24 h) the code as written gives
   * the pillar of the following day.
   */
  lemma DayPillarWestIsNextDay(y: int, m: int, d: int, tzHours: real)
    requires 1 <= m <= 12 && DayNumber(y, m, d) >= 1
    requires -24.0 < tzHours <= 0.0
    ensures DayPillarAsWritten(y, m, d, tzHours) == GanzhiFromIndex((DayIndex(y, m, d) + 1) % 60)
  {
    var n := DayNumber(y, m, d);
    var jd0 := GregorianToJD(y, m, d, -tzHours, 0.0, 0.0);
    assert jd0 + 0.5 == (n as real) - tzHours / 24.0;
    assert n as real <= jd0 + 0.5 < (n + 1) as real;
    assert (jd0 + 0.5).Floor == n;
    NextResidue(n + DayEpoch - 1);
    assert JsRem(n + DayEpoch, 60) == (DayIndex(y, m, d) + 1) % 60;
  }

  /** One more, reduced modulo 60, is the next residue. */
  lemma NextResidue(x: int)
    ensures (x + 1) % 60 == (x % 60 + 1) % 60
  {
    var q, r := x / 60, x % 60;
    assert x == 60 * q + r;
    if r < 59 {
      assert x + 1 == 60 * q + (r + 1);
    } else {
      assert x + 1 == 60 * (q + 1);
    }
  }

  /** 2000-01-01 is 戊午. */
  lemma DayPillarJ2000()
    ensures DayPillar(2000, 1, 1) == Some("戊午")
  {
    J2000();
    assert DayIndex(2000, 1, 1) == 54;
    assert GanzhiFromIndex(54) == Some("戊午") by {
      assert [Stems[4], Branches[6]] == "戊午";
    }
  }

  /** As written, a caller in Korea gets 戊午 for 2000-01-01 and a Greenwich caller 己未. */
  lemma DayPillarJ2000AsWritten()
    ensures DayPillarAsWritten(2000, 1, 1, 9.0) == Some("戊午")
    ensures DayPillarAsWritten(2000, 1, 1, 0.0) == Some("己未")
  {
    J2000();
    DayPillarJ2000();
    assert DayIndex(2000, 1, 1) == 54;
    assert GanzhiFromIndex(55) == Some("己未") by {
      assert [Stems[5], Branches[7]] == "己未";
    }
    DayPillarEastAgrees(2000, 1, 1, 9.0);
    DayPillarWestIsNextDay(2000, 1, 1, 0.0);
  }

  /** 1900-01-01 is 甲戌, the traditional anchor of the day count. */
  lemma DayPillar1900()
    ensures DayPillar(1900, 1, 1) == Some("甲戌")
  {
    assert DayIndex(1900, 1, 1) == 10 by {
      YearTermClosedForm(1899 + 4716);
      MonthTermClosedForm(14);
      assert DayNumber(1900, 1, 1) == 2415021;
    }
    assert GanzhiFromIndex(10) == Some("甲戌") by {
      assert [Stems[0], Branches[10]] == "甲戌";
    }
  }

  /** The day pillar advances one step of the cycle per civil day. */
  lemma DayPillarNextDay(y: int, m: int, d: int)
    requires 1 <= m <= 12 && 1 <= d <= DaysInMonth(y, m)
    ensures var (y2, m2, d2) := NextDate(y, m, d); DayIndex(y2, m2, d2) == (DayIndex(y, m, d) + 1) % 60
  {
    NextDateIsNextDay(y, m, d);
    var (y2, m2, d2) := NextDate(y, m, d);
    var x := DayNumber(y, m, d) + DayEpoch - 1;
    assert DayNumber(y2, m2, d2) + DayEpoch - 1 == x + 1;
    NextResidue(x);
  }

  // ---------------------------------------------------------------- hour

  /** `startForZi`: the stem of the 子 hour for each day stem. */
  const StartForZi: map<char, char> := map[
    '甲' := '甲', '己' := '甲',
    '乙' := '丙', '庚' := '丙',
    '丙' := '戊', '辛' := '戊',
    '丁' := '庚', '壬' := '庚',
    '戊' := '壬', '癸' := '壬']

  /** The table gives stem `2 (k mod 5)` to the 子 hour of a day with stem `k`. */
  lemma ZiStartRule(k: int)
    requires 0 <= k < 10
    ensures Stems[k] in StartForZi
    ensures StemIndexOf(StartForZi[Stems[k]]) == 2 * (k % 5)
  {
  }

  /** `TEN_STEMS.indexOf(startForZi[dayGz[0]])`: -1 when the day stem is unknown. */
  function HourStemStart(dayGz: string): (r: int)
    ensures StemIndex(dayGz) >= 0 ==> r == 2 * (StemIndex(dayGz) % 5)
    ensures StemIndex(dayGz) < 0 ==> r == -1
  {
    if |dayGz| >= 1 && dayGz[0] in StartForZi then
      ZiStartRule(StemIndex(dayGz));
      StemIndexOf(StartForZi[dayGz[0]])
    else -1
  }

  /**
   * The two-hour period of a clock time: period 0 (子) runs from 23:01 to
   * 01:00 and period `k >= 1` from `2k - 1` o'clock plus a minute to
   * `2k + 1` o'clock, each period closed at its end.
   */
  function HourBin(hour: int, minute: int): (bin: int)
    ensures 0 <= bin < 12
    ensures var t := (hour * 60 + minute) % 1440;
      (bin == 0 <==> t <= 60 || t > 1380) &&
      (bin >= 1 ==> 120 * bin - 60 < t <= 120 * bin + 60)
  {
    var t := (hour * 60 + minute) % 1440;
    var x := (hour * 60 + minute - 1381) % 1440;
    assert x == if t >= 1381 then t - 1381 else t + 59 by {
      var q := (hour * 60 + minute) / 1440;
      assert hour * 60 + minute == 1440 * q + t;
      ShiftResidue(t, q);
    }
    x / 120
  }

  /** Reducing `t - 1381 + 1440 q` modulo 1440 for a minute `t` of the day. */
  lemma ShiftResidue(t: int, q: int)
    requires 0 <= t < 1440
    ensures (1440 * q + t - 1381) % 1440 == if t >= 1381 then t - 1381 else t + 59
  {
    if t >= 1381 {
      assert 1440 * q + t - 1381 == 1440 * q + (t - 1381);
    } else {
      assert 1440 * q + t - 1381 == 1440 * (q - 1) + (t + 59);
    }
  }

  /** 23:00 still belongs to 亥; the 子 period begins at 23:01. */
  lemma HourBinZiStart()
    ensures HourBin(23, 0) == 11 && HourBin(23, 1) == 0
  {
    assert HourBin(23, 0) == 11 by { assert (23 * 60 + 0 - 1381) % 1440 == 1439; }
    assert HourBin(23, 1) == 0 by { assert (23 * 60 + 1 - 1381) % 1440 == 0; }
  }

  /** The 子 period ends with 01:00; 01:01 belongs to 丑. */
  lemma HourBinZiEnd()
    ensures HourBin(1, 0) == 0 && HourBin(1, 1) == 1
  {
    assert (1 * 60 + 0) % 1440 == 60;
    assert (1 * 60 + 1) % 1440 == 61;
  }

  /**
   * The hour stem counted on from the 子-hour stem `s0` and the period's
   * branch form a valid pair, and the stem is `2 (k mod 5) + bin` mod 10.
   */
  lemma HourParity(k: int, bin: int, s0: int)
    requires 0 <= bin < 12
    ensures 0 <= k < 10 && s0 == 2 * (k % 5) ==>
      JsRem(s0 + bin, 10) == (2 * (k % 5) + bin) % 10 &&
      ValidPair(JsRem(s0 + bin, 10), bin)
  {
    if 0 <= k < 10 && s0 == 2 * (k % 5) {
      EvenShiftParity(2 * (k % 5), bin);
    }
  }

  /** The hour code for a day code and a period (`stem + branch` of `hourPillar`). */
  function HourCode(dayGz: string, bin: int): (r: Option<string>)
    requires 0 <= bin < 12
    ensures StemIndex(dayGz) >= 0 ==>
      r.Some? && ValidPair(StemIndex(r.value), BranchIndex(r.value)) &&
      BranchIndex(r.value) == bin &&
      StemIndex(r.value) == (2 * (StemIndex(dayGz) % 5) + bin) % 10
  {
    var s0 := HourStemStart(dayGz);
    HourParity(StemIndex(dayGz), bin, s0);
    var st := JsRem(s0 + bin, 10);
    assert StemIndex(dayGz) >= 0 ==> st == (2 * (StemIndex(dayGz) % 5) + bin) % 10 && ValidPair(st, bin);
    Pair(st, bin)
  }

  /** The 1e-7 minutes `hourPillar` subtracts before dividing into periods. */
  const HourEps: real := 0.0000001

  /**
   * `hourPillar` with `useLmt` false and whole minutes: the clock time is
   * reduced to minutes since 23:00, shifted by 1e-7 so that a period's
   * closing minute stays in it, and divided into two-hour periods; the
   * result is the hour code of the day code and that period.
   */
  method HourPillar(dayGz: string, hour: int, minute: int) returns (r: Option<string>)
    ensures r == HourCode(dayGz, HourBin(hour, minute))
  {
    var minutes := hour * 60 + minute;
    minutes := JsRem(JsRem(minutes, 1440) + 1440, 1440);
    MinuteOfDay(hour * 60 + minute);
    var offset := JsRem(minutes - 23 * 60 + 1440, 1440);
    var offsetAdj := JsMinuteRem((offset as real) - HourEps + 1440.0);
    var binIdx := (offsetAdj / 120.0).Floor;
    PeriodOfOffset(hour, minute, minutes, offset);
    assert binIdx == HourBin(hour, minute);
    r := HourCode(dayGz, binIdx);
  }

  /** The double JavaScript remainder brings any minute count into the day. */
  lemma MinuteOfDay(a: int)
    ensures JsRem(JsRem(a, 1440) + 1440, 1440) == a % 1440
  {
    var q := a / 1440;
    assert a == 1440 * q + a % 1440;
    if a < 0 {
      var j := JsRem(a, 1440);
      assert j == -((-a) % 1440);
      var p := (-a) / 1440;
      assert -a == 1440 * p + (-a) % 1440;
      if (-a) % 1440 == 0 {
        assert a == 1440 * (-p);
      } else {
        assert a == 1440 * (-p - 1) + (1440 - (-a) % 1440);
      }
    }
  }

  /**
   * The minutes since 23:00, less the 1e-7 shift, fall in the period that
   * `HourBin` gives.
   */
  lemma PeriodOfOffset(hour: int, minute: int, minutes: int, offset: int)
    requires minutes == (hour * 60 + minute) % 1440
    requires offset == JsRem(minutes - 23 * 60 + 1440, 1440)
    ensures ((JsMinuteRem((offset as real) - HourEps + 1440.0)) / 120.0).Floor == HourBin(hour, minute)
  {
    var t := minutes;
    var offsetAdj := JsMinuteRem((offset as real) - HourEps + 1440.0);
    assert offset == if t >= 1380 then t - 1380 else t + 60;
    var x := (hour * 60 + minute - 1381) % 1440;
    assert x == if t >= 1381 then t - 1381 else t + 59 by {
      var q := (hour * 60 + minute) / 1440;
      assert hour * 60 + minute == 1440 * q + t;
      ShiftResidue(t, q);
    }
    if offset == 0 {
      assert offsetAdj == 1440.0 - HourEps;
      assert x == 1439;
    } else {
      assert offsetAdj == (offset as real) - HourEps;
      assert x == offset - 1;
      FloorJustBelow(offset);
    }
  }

  /** Just below a whole number of minutes lies the previous minute's period. */
  lemma FloorJustBelow(n: int)
    requires 1 <= n < 1440
    ensures (((n as real) - HourEps) / 120.0).Floor == (n - 1) / 120
  {
    var k := (n - 1) / 120;
    assert 120 * k <= n - 1 < 120 * k + 120;
    assert 120.0 * (k as real) < (n as real) - HourEps < 120.0 * (k as real) + 120.0;
  }

  // ----------------------------------------------------------- manseCalc

  /** The four pillars of a birth. */
  datatype FourPillars = FourPillars(year: Option<string>, month: Option<string>, day: Option<string>, hour: Option<string>)

  /**
   * `manseCalc` for local civil time `y-m-d hh:mm` at `tzHours` east of
   * Greenwich, given the solar longitude at the birth instant and the
   * Julian day of the year's Lichun crossing: every pillar is a valid code,
   * and the day pillar does not depend on the time of day.
   */
  method ManseCalc(y: int, m: int, d: int, hh: int, mm: int, tzHours: real, lambda: real, lichun: real)
      returns (p: FourPillars)
    requires 1 <= m <= 12
    requires 0.0 <= lambda < 360.0
    ensures p.year.Some? && p.month.Some? && p.day.Some? && p.hour.Some?
    ensures ValidPair(StemIndex(p.month.value), BranchIndex(p.month.value))
    ensures ValidPair(StemIndex(p.hour.value), BranchIndex(p.hour.value))
    ensures p.year == YearPillar(GregorianToJD(y, m, d, (hh as real) - tzHours, mm as real, 0.0), lichun, y)
    ensures p.month == MonthPillarFromLongitude(lambda, p.year.value)
    ensures p.day == DayPillar(y, m, d)
    ensures p.hour == HourCode(p.day.value, HourBin(hh, mm))
  {
    var jdUtc := GregorianToJD(y, m, d, (hh as real) - tzHours, mm as real, 0.0);
    var gzYear := YearPillar(jdUtc, lichun, y);
    var gzMonth := MonthPillarFromLongitude(lambda, gzYear.value);
    var gzDay := DayPillar(y, m, d);
    var gzHour := HourPillar(gzDay.value, hh, mm);
    p := FourPillars(gzYear, gzMonth, gzDay, gzHour);
  }
  /**
   * `manseCalc` as written: the year and day codes by the truncating
   * remainder, the month pillar read from the text of the year code and
   * the hour pillar from the text of the day code, codes or not. From 1984
   * on, for a date in the Julian period and a zone east of Greenwich, the
   * pillars are those of `ManseCalc`.
   */
  method ManseCalcAsWritten(y: int, m: int, d: int, hh: int, mm: int, tzHours: real, lambda: real, lichun: real)
      returns (p: FourPillars)
    requires 1 <= m <= 12
    ensures var jdUtc := GregorianToJD(y, m, d, (hh as real) - tzHours, mm as real, 0.0);
      p.year == YearPillarAsWritten(jdUtc, lichun, y) &&
      p.month == MonthPillarFromLongitude(lambda, GanzhiTextAsWritten(YearIndexAsWritten(jdUtc, lichun, y)))
    ensures p.day == DayPillarAsWritten(y, m, d, tzHours)
    ensures p.hour == HourCode(GanzhiTextAsWritten(DayIndexAsWritten(y, m, d, tzHours)), HourBin(hh, mm))
    ensures var jdUtc := GregorianToJD(y, m, d, (hh as real) - tzHours, mm as real, 0.0);
      EffectiveYear(jdUtc, lichun, y) >= 1984 && DayNumber(y, m, d) >= 1 && 0.0 < tzHours <= 24.0 ==>
        p.year == YearPillar(jdUtc, lichun, y) && p.month == MonthPillarFromLongitude(lambda, p.year.value) &&
        p.day == DayPillar(y, m, d) && p.hour == HourCode(p.day.value, HourBin(hh, mm))
  {
    var jdUtc := GregorianToJD(y, m, d, (hh as real) - tzHours, mm as real, 0.0);
    var gzYear := GanzhiTextAsWritten(YearIndexAsWritten(jdUtc, lichun, y));
    var gzMonth := MonthPillarFromLongitude(lambda, gzYear);
    var gzDay := GanzhiTextAsWritten(DayIndexAsWritten(y, m, d, tzHours));
    var gzHour := HourPillar(gzDay, hh, mm);
    if DayNumber(y, m, d) >= 1 && 0.0 < tzHours <= 24.0 {
      DayPillarEastAgrees(y, m, d, tzHours);
    }
    p := FourPillars(YearPillarAsWritten(jdUtc, lichun, y), gzMonth, DayPillarAsWritten(y, m, d, tzHours), gzHour);
  }

  /**
   * A birth in 1983 after Lichun: the year text as written is `NaN`, which
   * has no Korean reading and no stem, so the month pillar has no stem in the 寅 month and the
   * mixed pair 甲卯 in the 卯 month, where the corrected year 癸亥 gives 乙卯.
   */
  lemma ManseCalcAsWritten1983()
    ensures YearIndexAsWritten(0.0, 0.0, 1983) == -1 && GanzhiTextAsWritten(-1) == "NaN"
    ensures GanzhiToKorean("NaN") == Failure(InvalidGanzhi("NaN"))
    ensures MonthPillarFromLongitude(315.0, "NaN").None?
    ensures MonthPillarFromLongitude(345.0, "NaN") == Some("甲卯")
    ensures !ValidPair(StemIndex("甲卯"), BranchIndex("甲卯"))
    ensures YearPillar(0.0, 0.0, 1983) == Some("癸亥")
    ensures MonthPillarFromLongitude(345.0, "癸亥") == Some("乙卯")
  {
    YearPillar1983();
    YearText1983();
    MonthsOfStemlessYear();
    MonthOfGuiHaiYear();
  }

  /** A year text without a stem: no 寅-month stem, and the mixed pair 甲卯 for the 卯 month. */
  lemma MonthsOfStemlessYear()
    ensures MonthPillarFromLongitude(315.0, "NaN").None?
    ensures MonthPillarFromLongitude(345.0, "NaN") == Some("甲卯")
    ensures !ValidPair(StemIndex("甲卯"), BranchIndex("甲卯"))
  {
    MonthSectors();
    assert MonthStemStart("NaN") == -1;
    assert [Stems[0], Branches[3]] == "甲卯";
  }

  /** A 癸 year's 卯 month is 乙卯. */
  lemma MonthOfGuiHaiYear()
    ensures MonthPillarFromLongitude(345.0, "癸亥") == Some("乙卯")
  {
    MonthSectors();
    assert StemIndex("癸亥") == 9;
    assert [Stems[1], Branches[3]] == "乙卯";
  }

  /** The text of index -1 is `NaN`, which is not two characters long. */
  lemma YearText1983()
    ensures YearIndexAsWritten(0.0, 0.0, 1983) == -1 && GanzhiTextAsWritten(-1) == "NaN"
    ensures GanzhiToKorean("NaN") == Failure(InvalidGanzhi("NaN"))
  {
  }

  /** 315 degrees opens the 寅 sector (0), 345 degrees is in the 卯 sector (1). */
  lemma MonthSectors()
    ensures TermIndexFromLongitude(315.0) == 0 && TermIndexFromLongitude(345.0) == 1
  {
  }

  /** In 1974 the year text as written is `甲undefined`: its first glyph is still the year's stem. */
  lemma YearTextAsWritten1974()
    ensures YearIndexAsWritten(0.0, 0.0, 1974) == -10 && GanzhiTextAsWritten(-10) == "甲undefined"
  {
    assert [Stems[0]] + "undefined" == "甲undefined";
  }
}
