/**
 * The table-based Gregorian-to-lunar conversion of `gregorianToLunar` for
 * the Korean/Chinese lunisolar calendar, supported from 1900-01-31 (lunar
 * 1900-01-01) to 2100-12-31.
 *
 * A lunar year is a run of months of 29 or 30 days: the ordinary months 1..12
 * and, in some years, a leap month that follows the ordinary month of the
 * same number. Position `s` (0-based) in that run is a "slot"; `OffsetOf`
 * counts the days from 1900-01-31 to a lunar date through the years and
 * slots before it, and the conversion is correct when it returns the one
 * valid lunar date whose offset is the civil date's.
 */
module Lunar {
  import opened Wrappers
  import opened JulianDay

  /**
   * `LUNAR_INFO_1900[year - 1900]`. Bits 15..4 mark the long (30-day)
   * months 1..12, the low nibble is the leap month (0 for none) and bit 16
   * makes the leap month long. Outside 1900..2100 the JavaScript read is
   * `undefined`, which every bitwise operation turns into 0.
   */
  function Info(year: int): bv32
  {
    if year < 1900 || year > 2100 then 0
    else if year < 1920 then InfoFrom1900(year)
    else if year < 1940 then InfoFrom1920(year)
    else if year < 1960 then InfoFrom1940(year)
    else if year < 1980 then InfoFrom1960(year)
    else if year < 2000 then InfoFrom1980(year)
    else if year < 2020 then InfoFrom2000(year)
    else if year < 2040 then InfoFrom2020(year)
    else if year < 2060 then InfoFrom2040(year)
    else if year < 2080 then InfoFrom2060(year)
    else if year < 2100 then InfoFrom2080(year)
    else InfoFrom2100(year)
  }

  function InfoFrom1900(year: int): bv32
  {
    match year
    case 1900 => 0x04BD8
    case 1901 => 0x04AE0
    case 1902 => 0x0A570
    case 1903 => 0x054D5
    case 1904 => 0x0D260
    case 1905 => 0x0D950
    case 1906 => 0x16554
    case 1907 => 0x056A0
    case 1908 => 0x09AD0
    case 1909 => 0x055D2
    case 1910 => 0x04AE0
    case 1911 => 0x0A5B6
    case 1912 => 0x0A4D0
    case 1913 => 0x0D250
    case 1914 => 0x1D255
    case 1915 => 0x0B540
    case 1916 => 0x0D6A0
    case 1917 => 0x0ADA2
    case 1918 => 0x095B0
    case 1919 => 0x14977
    case _ => 0
  }

  function InfoFrom1920(year: int): bv32
  {
    match year
    case 1920 => 0x04970
    case 1921 => 0x0A4B0
    case 1922 => 0x0B4B5
    case 1923 => 0x06A50
    case 1924 => 0x06D40
    case 1925 => 0x1AB54
    case 1926 => 0x02B60
    case 1927 => 0x09570
    case 1928 => 0x052F2
    case 1929 => 0x04970
    case 1930 => 0x06566
    case 1931 => 0x0D4A0
    case 1932 => 0x0EA50
    case 1933 => 0x06E95
    case 1934 => 0x05AD0
    case 1935 => 0x02B60
    case 1936 => 0x186E3
    case 1937 => 0x092E0
    case 1938 => 0x1C8D7
    case 1939 => 0x0C950
    case _ => 0
  }

  function InfoFrom1940(year: int): bv32
  {
    match year
    case 1940 => 0x0D4A0
    case 1941 => 0x1D8A6
    case 1942 => 0x0B550
    case 1943 => 0x056A0
    case 1944 => 0x1A5B4
    case 1945 => 0x025D0
    case 1946 => 0x092D0
    case 1947 => 0x0D2B2
    case 1948 => 0x0A950
    case 1949 => 0x0B557
    case 1950 => 0x06CA0
    case 1951 => 0x0B550
    case 1952 => 0x15355
    case 1953 => 0x04DA0
    case 1954 => 0x0A5B0
    case 1955 => 0x14573
    case 1956 => 0x052B0
    case 1957 => 0x0A9A8
    case 1958 => 0x0E950
    case 1959 => 0x06AA0
    case _ => 0
  }

  function InfoFrom1960(year: int): bv32
  {
    match year
    case 1960 => 0x0AEA6
    case 1961 => 0x0AB50
    case 1962 => 0x04B60
    case 1963 => 0x0AAE4
    case 1964 => 0x0A570
    case 1965 => 0x05260
    case 1966 => 0x0F263
    case 1967 => 0x0D950
    case 1968 => 0x05B57
    case 1969 => 0x056A0
    case 1970 => 0x096D0
    case 1971 => 0x04DD5
    case 1972 => 0x04AD0
    case 1973 => 0x0A4D0
    case 1974 => 0x0D4D4
    case 1975 => 0x0D250
    case 1976 => 0x0D558
    case 1977 => 0x0B540
    case 1978 => 0x0B5A0
    case 1979 => 0x195A6
    case _ => 0
  }

  function InfoFrom1980(year: int): bv32
  {
    match year
    case 1980 => 0x095B0
    case 1981 => 0x049B0
    case 1982 => 0x0A974
    case 1983 => 0x0A4B0
    case 1984 => 0x0B27A
    case 1985 => 0x06A50
    case 1986 => 0x06D40
    case 1987 => 0x0AF46
    case 1988 => 0x0AB60
    case 1989 => 0x09570
    case 1990 => 0x04AF5
    case 1991 => 0x04970
    case 1992 => 0x064B0
    case 1993 => 0x074A3
    case 1994 => 0x0EA50
    case 1995 => 0x06B58
    case 1996 => 0x05AC0
    case 1997 => 0x0AB60
    case 1998 => 0x096D5
    case 1999 => 0x092E0
    case _ => 0
  }

  function InfoFrom2000(year: int): bv32
  {
    match year
    case 2000 => 0x0C960
    case 2001 => 0x0D954
    case 2002 => 0x0D4A0
    case 2003 => 0x0DA50
    case 2004 => 0x07552
    case 2005 => 0x056A0
    case 2006 => 0x0ABB7
    case 2007 => 0x025D0
    case 2008 => 0x092D0
    case 2009 => 0x0CAB5
    case 2010 => 0x0A950
    case 2011 => 0x0B4A0
    case 2012 => 0x0BAA4
    case 2013 => 0x0AD50
    case 2014 => 0x055D9
    case 2015 => 0x04BA0
    case 2016 => 0x0A5B0
    case 2017 => 0x15176
    case 2018 => 0x052B0
    case 2019 => 0x0A930
    case _ => 0
  }

  function InfoFrom2020(year: int): bv32
  {
    match year
    case 2020 => 0x07954
    case 2021 => 0x06AA0
    case 2022 => 0x0AD50
    case 2023 => 0x05B52
    case 2024 => 0x04B60
    case 2025 => 0x0A6E6
    case 2026 => 0x0A4E0
    case 2027 => 0x0D260
    case 2028 => 0x0EA65
    case 2029 => 0x0D530
    case 2030 => 0x05AA0
    case 2031 => 0x076A3
    case 2032 => 0x096D0
    case 2033 => 0x04BD7
    case 2034 => 0x04AD0
    case 2035 => 0x0A4D0
    case 2036 => 0x1D0B6
    case 2037 => 0x0D250
    case 2038 => 0x0D520
    case 2039 => 0x0DD45
    case _ => 0
  }

  function InfoFrom2040(year: int): bv32
  {
    match year
    case 2040 => 0x0B5A0
    case 2041 => 0x056D0
    case 2042 => 0x055B2
    case 2043 => 0x049B0
    case 2044 => 0x0A577
    case 2045 => 0x0A4B0
    case 2046 => 0x0AA50
    case 2047 => 0x1B255
    case 2048 => 0x06D20
    case 2049 => 0x0ADA0
    case 2050 => 0x14B63
    case 2051 => 0x09370
    case 2052 => 0x049F8
    case 2053 => 0x04970
    case 2054 => 0x064B0
    case 2055 => 0x168A6
    case 2056 => 0x0EA50
    case 2057 => 0x06B20
    case 2058 => 0x1A6C4
    case 2059 => 0x0AAE0
    case _ => 0
  }

  function InfoFrom2060(year: int): bv32
  {
    match year
    case 2060 => 0x092E0
    case 2061 => 0x0D2E3
    case 2062 => 0x0C960
    case 2063 => 0x0D557
    case 2064 => 0x0D4A0
    case 2065 => 0x0DA50
    case 2066 => 0x05D55
    case 2067 => 0x056A0
    case 2068 => 0x0A6D0
    case 2069 => 0x055D4
    case 2070 => 0x052D0
    case 2071 => 0x0A9B8
    case 2072 => 0x0A950
    case 2073 => 0x0B4A0
    case 2074 => 0x0B6A6
    case 2075 => 0x0AD50
    case 2076 => 0x055A0
    case 2077 => 0x0ABA4
    case 2078 => 0x0A5B0
    case 2079 => 0x052B0
    case _ => 0
  }

  function InfoFrom2080(year: int): bv32
  {
    match year
    case 2080 => 0x0B273
    case 2081 => 0x06930
    case 2082 => 0x07337
    case 2083 => 0x06AA0
    case 2084 => 0x0AD50
    case 2085 => 0x14B55
    case 2086 => 0x04B60
    case 2087 => 0x0A570
    case 2088 => 0x054E4
    case 2089 => 0x0D160
    case 2090 => 0x0E968
    case 2091 => 0x0D520
    case 2092 => 0x0DAA0
    case 2093 => 0x16AA6
    case 2094 => 0x056D0
    case 2095 => 0x04AE0
    case 2096 => 0x0A9D4
    case 2097 => 0x0A2D0
    case 2098 => 0x0D150
    case 2099 => 0x0F252
    case _ => 0
  }

  function InfoFrom2100(year: int): bv32
  {
    match year
    case 2100 => 0x0D520
    case _ => 0
  }

  // -------------------------------------------------- the table's entries

  /** The leap month an entry records in its low nibble, 0 for none. */
  function EntryLeapMonth(info: bv32): (r: int)
    ensures 0 <= r < 16
    ensures r == 0 <==> info & 0xF == 0
    ensures info & 0xF <= 12 ==> r <= 12
  {
    var n := info & 0xF;
    if n == 0 then 0 else if n == 1 then 1 else if n == 2 then 2 else if n == 3 then 3
    else if n == 4 then 4 else if n == 5 then 5 else if n == 6 then 6 else if n == 7 then 7
    else if n == 8 then 8 else if n == 9 then 9 else if n == 10 then 10 else if n == 11 then 11
    else if n == 12 then 12 else if n == 13 then 13 else if n == 14 then 14 else 15
  }

  /** An entry whose leap-month nibble names a month of the year, or is 0. */
  predicate WellFormed(info: bv32)
  {
    info & 0xF <= 12
  }

  /** Every entry of the table is well formed. */
  lemma TableWellFormed(year: int)
    ensures WellFormed(Info(year))
  {
  }

  /** The days of an entry's leap month: 0 without one, else 30 when bit 16 is set, else 29. */
  function EntryLeapDays(info: bv32): (r: int)
    ensures r == 0 <==> EntryLeapMonth(info) == 0
    ensures r != 0 ==> r == 29 || r == 30
  {
    if EntryLeapMonth(info) == 0 then 0 else if info & 0x10000 != 0 then 30 else 29
  }

  /** 1 when bit `mask` of an entry is set, else 0. */
  function Bit(info: bv32, mask: bv32): int
  {
    if info & mask != 0 then 1 else 0
  }

  /** The bit of ordinary month `month` in an entry. */
  function MonthMask(month: int): bv32
  {
    match month
    case 1 => 0x8000 case 2 => 0x4000 case 3 => 0x2000 case 4 => 0x1000
    case 5 => 0x800 case 6 => 0x400 case 7 => 0x200 case 8 => 0x100
    case 9 => 0x80 case 10 => 0x40 case 11 => 0x20 case 12 => 0x10
    case _ => 0
  }

  /** Month `month`'s bit is the table's `0x10000 >> month`. */
  lemma MaskShift(month: int)
    requires 1 <= month <= 12
    ensures MonthMask(month) == 0x10000 >> month
  {
  }

  /** The days of an entry's ordinary month: 29, and one more when its bit is set. */
  function EntryMonthDays(info: bv32, month: int): (r: int)
    ensures r == 29 || r == 30
  {
    29 + Bit(info, MonthMask(month))
  }

  /**
   * The days of an entry's year: 348 for twelve months of 29 days, one more
   * for each long month (bits 15..4), and the leap month.
   */
  function EntryYearDays(info: bv32): int
  {
    348 + Bit(info, 0x8000) + Bit(info, 0x4000) + Bit(info, 0x2000) + Bit(info, 0x1000) +
    Bit(info, 0x800) + Bit(info, 0x400) + Bit(info, 0x200) + Bit(info, 0x100) +
    Bit(info, 0x80) + Bit(info, 0x40) + Bit(info, 0x20) + Bit(info, 0x10) +
    (if info & 0xF == 0 then 0 else if info & 0x10000 != 0 then 30 else 29)
  }

  // -------------------------------------------------- the table's readers

  /** `lunarLeapMonth`: the leap month of a year, 0 when it has none. */
  function LeapMonth(year: int): (r: int)
    ensures 0 <= r <= 12
  {
    TableWellFormed(year);
    EntryLeapMonth(Info(year))
  }

  /**
   * `lunarLeapDays`: the length of the year's leap month, 30 when bit 16 is
   * set, else 29, and 0 when the year has no leap month.
   */
  function LeapDays(year: int): (r: int)
    ensures r == EntryLeapDays(Info(year))
  {
    if LeapMonth(year) == 0 then 0
    else if Info(year) & 0x10000 != 0 then 30
    else 29
  }

  /** `lunarMonthDays`: ordinary month `month` is long when bit `16 - month` is set. */
  function MonthDays(year: int, month: int): (r: int)
    requires 1 <= month <= 12
    ensures r == EntryMonthDays(Info(year), month)
  {
    MaskShift(month);
    if Info(year) & (0x10000 >> month) != 0 then 30 else 29
  }

  /**
   * The days of a tabulated lunar year: at least twelve short months (348
   * days), at most twelve long months and a long leap month (390 days).
   */
  function YearDays(year: int): (r: int)
    ensures 348 <= r <= 390
  {
    EntryYearDays(Info(year))
  }

  // ------------------------------------------------------ year layouts

  /**
   * A lunar year as the table describes it: its leap month (0 for none),
   * the leap month's days, and the days of ordinary months 1..12.
   */
  datatype Layout = Layout(leapMonth: int, leapDays: int, monthDays: seq<int>)

  /** A layout the table can describe. */
  predicate ValidLayout(e: Layout)
  {
    0 <= e.leapMonth <= 12 && |e.monthDays| == 12 &&
    (e.leapDays == 0 <==> e.leapMonth == 0) &&
    (e.leapMonth != 0 ==> e.leapDays == 29 || e.leapDays == 30) &&
    forall i :: 0 <= i < 12 ==> e.monthDays[i] == 29 || e.monthDays[i] == 30
  }

  /** The layout an entry describes. */
  function EntryLayout(info: bv32): (e: Layout)
    requires WellFormed(info)
    ensures ValidLayout(e)
    ensures e.leapMonth == EntryLeapMonth(info) && e.leapDays == EntryLeapDays(info)
    ensures forall month :: 1 <= month <= 12 ==> e.monthDays[month - 1] == EntryMonthDays(info, month)
  {
    Layout(EntryLeapMonth(info), EntryLeapDays(info), seq(12, i => EntryMonthDays(info, i + 1)))
  }

  /** The layout of a tabulated year, as the table's readers report it. */
  function YearLayout(year: int): (e: Layout)
    ensures ValidLayout(e)
    ensures e.leapMonth == LeapMonth(year) && e.leapDays == LeapDays(year)
    ensures forall month :: 1 <= month <= 12 ==> e.monthDays[month - 1] == MonthDays(year, month)
  {
    TableWellFormed(year);
    EntryLayout(Info(year))
  }

  /** The days of the first `n` ordinary months of a layout. */
  function MonthsTotal(e: Layout, n: int): int
    requires ValidLayout(e) && 0 <= n <= 12
  {
    if n == 0 then 0 else MonthsTotal(e, n - 1) + e.monthDays[n - 1]
  }

  /** An entry's year is its twelve ordinary months and its leap month. */
  lemma EntryDaysByMonths(info: bv32)
    requires WellFormed(info)
    ensures EntryYearDays(info) == MonthsTotal(EntryLayout(info), 12) + EntryLeapDays(info)
  {
    var e := EntryLayout(info);
    assert MonthsTotal(e, 1) == 29 + Bit(info, 0x8000);
    assert MonthsTotal(e, 2) == MonthsTotal(e, 1) + 29 + Bit(info, 0x4000);
    assert MonthsTotal(e, 3) == MonthsTotal(e, 2) + 29 + Bit(info, 0x2000);
    assert MonthsTotal(e, 4) == MonthsTotal(e, 3) + 29 + Bit(info, 0x1000);
    assert MonthsTotal(e, 5) == MonthsTotal(e, 4) + 29 + Bit(info, 0x800);
    assert MonthsTotal(e, 6) == MonthsTotal(e, 5) + 29 + Bit(info, 0x400);
    assert MonthsTotal(e, 7) == MonthsTotal(e, 6) + 29 + Bit(info, 0x200);
    assert MonthsTotal(e, 8) == MonthsTotal(e, 7) + 29 + Bit(info, 0x100);
    assert MonthsTotal(e, 9) == MonthsTotal(e, 8) + 29 + Bit(info, 0x80);
    assert MonthsTotal(e, 10) == MonthsTotal(e, 9) + 29 + Bit(info, 0x40);
    assert MonthsTotal(e, 11) == MonthsTotal(e, 10) + 29 + Bit(info, 0x20);
    assert MonthsTotal(e, 12) == MonthsTotal(e, 11) + 29 + Bit(info, 0x10);
  }

  /** One more month adds 29 days, and one more when the month's bit is set. */
  lemma MonthsTotalStep(info: bv32, month: int)
    requires WellFormed(info) && 1 <= month <= 12
    ensures MonthsTotal(EntryLayout(info), month) ==
      MonthsTotal(EntryLayout(info), month - 1) + 29 + (if info & (0x10000 >> month) != 0 then 1 else 0)
  {
    MaskShift(month);
  }

  /** A tabulated year is its twelve ordinary months and its leap month. */
  lemma YearDaysByMonths(year: int)
    ensures YearDays(year) == MonthsTotal(YearLayout(year), 12) + LeapDays(year)
  {
    TableWellFormed(year);
    EntryDaysByMonths(Info(year));
  }

  /**
   * `lunarYearDays`: 29 days for each ordinary month, one more for each
   * long one, plus the leap month.
   */
  method LunarYearDays(year: int) returns (days: int)
    ensures days == YearDays(year)
  {
    days := 29 * 12;
    var info := Info(year);
    TableWellFormed(year);
    ghost var e := EntryLayout(info);
    var month := 1;
    while month <= 12
      invariant 1 <= month <= 13
      invariant days == 348 + MonthsTotal(e, month - 1) - 29 * (month - 1)
    {
      MonthsTotalStep(info, month);
      if info & (0x10000 >> month) != 0 {
        days := days + 1;
      }
      month := month + 1;
    }
    days := days + LeapDays(year);
    EntryDaysByMonths(info);
  }

  /** The days of the lunar years from `lo` up to, not including, `hi`. */
  function SumYears(lo: int, hi: int): int
    decreases hi - lo
  {
    if hi <= lo then 0 else SumYears(lo, hi - 1) + YearDays(hi - 1)
  }

  /** Counting the days of consecutive years splits at any year between. */
  lemma {:induction false} SumYearsSplit(lo: int, mid: int, hi: int)
    requires lo <= mid <= hi
    ensures SumYears(lo, hi) == SumYears(lo, mid) + SumYears(mid, hi)
    decreases hi - mid
  {
    if mid < hi {
      SumYearsSplit(lo, mid, hi - 1);
    }
  }

  lemma YearsFrom1900()
    ensures SumYears(1900, 1920) == 7324
  {
    assert SumYears(1900, 1901) == 384;
    assert SumYears(1900, 1902) == 738;
    assert SumYears(1900, 1903) == 1093;
    assert SumYears(1900, 1904) == 1476;
    assert SumYears(1900, 1905) == 1830;
    assert SumYears(1900, 1906) == 2185;
    assert SumYears(1900, 1907) == 2569;
    assert SumYears(1900, 1908) == 2923;
    assert SumYears(1900, 1909) == 3278;
    assert SumYears(1900, 1910) == 3662;
    assert SumYears(1900, 1911) == 4016;
    assert SumYears(1900, 1912) == 4400;
    assert SumYears(1900, 1913) == 4754;
    assert SumYears(1900, 1914) == 5108;
    assert SumYears(1900, 1915) == 5492;
    assert SumYears(1900, 1916) == 5846;
    assert SumYears(1900, 1917) == 6201;
    assert SumYears(1900, 1918) == 6585;
    assert SumYears(1900, 1919) == 6940;
  }

  lemma YearsFrom1920()
    ensures SumYears(1920, 1940) == 7293
  {
    assert SumYears(1920, 1921) == 354;
    assert SumYears(1920, 1922) == 708;
    assert SumYears(1920, 1923) == 1092;
    assert SumYears(1920, 1924) == 1446;
    assert SumYears(1920, 1925) == 1800;
    assert SumYears(1920, 1926) == 2185;
    assert SumYears(1920, 1927) == 2539;
    assert SumYears(1920, 1928) == 2894;
    assert SumYears(1920, 1929) == 3278;
    assert SumYears(1920, 1930) == 3632;
    assert SumYears(1920, 1931) == 4015;
    assert SumYears(1920, 1932) == 4369;
    assert SumYears(1920, 1933) == 4724;
    assert SumYears(1920, 1934) == 5108;
    assert SumYears(1920, 1935) == 5463;
    assert SumYears(1920, 1936) == 5817;
    assert SumYears(1920, 1937) == 6201;
    assert SumYears(1920, 1938) == 6555;
    assert SumYears(1920, 1939) == 6939;
  }

  lemma YearsFrom1940()
    ensures SumYears(1940, 1960) == 7294
  {
    assert SumYears(1940, 1941) == 354;
    assert SumYears(1940, 1942) == 738;
    assert SumYears(1940, 1943) == 1093;
    assert SumYears(1940, 1944) == 1447;
    assert SumYears(1940, 1945) == 1832;
    assert SumYears(1940, 1946) == 2186;
    assert SumYears(1940, 1947) == 2540;
    assert SumYears(1940, 1948) == 2924;
    assert SumYears(1940, 1949) == 3278;
    assert SumYears(1940, 1950) == 3662;
    assert SumYears(1940, 1951) == 4016;
    assert SumYears(1940, 1952) == 4371;
    assert SumYears(1940, 1953) == 4755;
    assert SumYears(1940, 1954) == 5109;
    assert SumYears(1940, 1955) == 5464;
    assert SumYears(1940, 1956) == 5848;
    assert SumYears(1940, 1957) == 6202;
    assert SumYears(1940, 1958) == 6585;
    assert SumYears(1940, 1959) == 6940;
  }

  lemma YearsFrom1960()
    ensures SumYears(1960, 1980) == 7324
  {
    assert SumYears(1960, 1961) == 384;
    assert SumYears(1960, 1962) == 739;
    assert SumYears(1960, 1963) == 1093;
    assert SumYears(1960, 1964) == 1477;
    assert SumYears(1960, 1965) == 1832;
    assert SumYears(1960, 1966) == 2185;
    assert SumYears(1960, 1967) == 2569;
    assert SumYears(1960, 1968) == 2924;
    assert SumYears(1960, 1969) == 3308;
    assert SumYears(1960, 1970) == 3662;
    assert SumYears(1960, 1971) == 4017;
    assert SumYears(1960, 1972) == 4401;
    assert SumYears(1960, 1973) == 4755;
    assert SumYears(1960, 1974) == 5109;
    assert SumYears(1960, 1975) == 5493;
    assert SumYears(1960, 1976) == 5847;
    assert SumYears(1960, 1977) == 6231;
    assert SumYears(1960, 1978) == 6585;
    assert SumYears(1960, 1979) == 6940;
  }

  lemma YearsFrom1980()
    ensures SumYears(1980, 2000) == 7294
  {
    assert SumYears(1980, 1981) == 355;
    assert SumYears(1980, 1982) == 709;
    assert SumYears(1980, 1983) == 1093;
    assert SumYears(1980, 1984) == 1447;
    assert SumYears(1980, 1985) == 1831;
    assert SumYears(1980, 1986) == 2185;
    assert SumYears(1980, 1987) == 2539;
    assert SumYears(1980, 1988) == 2923;
    assert SumYears(1980, 1989) == 3278;
    assert SumYears(1980, 1990) == 3633;
    assert SumYears(1980, 1991) == 4017;
    assert SumYears(1980, 1992) == 4371;
    assert SumYears(1980, 1993) == 4725;
    assert SumYears(1980, 1994) == 5108;
    assert SumYears(1980, 1995) == 5463;
    assert SumYears(1980, 1996) == 5847;
    assert SumYears(1980, 1997) == 6201;
    assert SumYears(1980, 1998) == 6556;
    assert SumYears(1980, 1999) == 6940;
  }

  lemma YearsFrom2000()
    ensures SumYears(2000, 2020) == 7294
  {
    assert SumYears(2000, 2001) == 354;
    assert SumYears(2000, 2002) == 738;
    assert SumYears(2000, 2003) == 1092;
    assert SumYears(2000, 2004) == 1447;
    assert SumYears(2000, 2005) == 1831;
    assert SumYears(2000, 2006) == 2185;
    assert SumYears(2000, 2007) == 2570;
    assert SumYears(2000, 2008) == 2924;
    assert SumYears(2000, 2009) == 3278;
    assert SumYears(2000, 2010) == 3662;
    assert SumYears(2000, 2011) == 4016;
    assert SumYears(2000, 2012) == 4370;
    assert SumYears(2000, 2013) == 4754;
    assert SumYears(2000, 2014) == 5109;
    assert SumYears(2000, 2015) == 5493;
    assert SumYears(2000, 2016) == 5847;
    assert SumYears(2000, 2017) == 6202;
    assert SumYears(2000, 2018) == 6586;
    assert SumYears(2000, 2019) == 6940;
  }

  lemma YearsFrom2020()
    ensures SumYears(2020, 2040) == 7323
  {
    assert SumYears(2020, 2021) == 384;
    assert SumYears(2020, 2022) == 738;
    assert SumYears(2020, 2023) == 1093;
    assert SumYears(2020, 2024) == 1477;
    assert SumYears(2020, 2025) == 1831;
    assert SumYears(2020, 2026) == 2215;
    assert SumYears(2020, 2027) == 2569;
    assert SumYears(2020, 2028) == 2923;
    assert SumYears(2020, 2029) == 3307;
    assert SumYears(2020, 2030) == 3662;
    assert SumYears(2020, 2031) == 4016;
    assert SumYears(2020, 2032) == 4400;
    assert SumYears(2020, 2033) == 4755;
    assert SumYears(2020, 2034) == 5139;
    assert SumYears(2020, 2035) == 5493;
    assert SumYears(2020, 2036) == 5847;
    assert SumYears(2020, 2037) == 6231;
    assert SumYears(2020, 2038) == 6585;
    assert SumYears(2020, 2039) == 6939;
  }

  lemma YearsFrom2040()
    ensures SumYears(2040, 2060) == 7295
  {
    assert SumYears(2040, 2041) == 355;
    assert SumYears(2040, 2042) == 710;
    assert SumYears(2040, 2043) == 1094;
    assert SumYears(2040, 2044) == 1448;
    assert SumYears(2040, 2045) == 1832;
    assert SumYears(2040, 2046) == 2186;
    assert SumYears(2040, 2047) == 2540;
    assert SumYears(2040, 2048) == 2924;
    assert SumYears(2040, 2049) == 3278;
    assert SumYears(2040, 2050) == 3633;
    assert SumYears(2040, 2051) == 4017;
    assert SumYears(2040, 2052) == 4372;
    assert SumYears(2040, 2053) == 4756;
    assert SumYears(2040, 2054) == 5110;
    assert SumYears(2040, 2055) == 5464;
    assert SumYears(2040, 2056) == 5847;
    assert SumYears(2040, 2057) == 6202;
    assert SumYears(2040, 2058) == 6556;
    assert SumYears(2040, 2059) == 6940;
  }

  lemma YearsFrom2060()
    ensures SumYears(2060, 2080) == 7294
  {
    assert SumYears(2060, 2061) == 354;
    assert SumYears(2060, 2062) == 738;
    assert SumYears(2060, 2063) == 1092;
    assert SumYears(2060, 2064) == 1476;
    assert SumYears(2060, 2065) == 1830;
    assert SumYears(2060, 2066) == 2185;
    assert SumYears(2060, 2067) == 2569;
    assert SumYears(2060, 2068) == 2923;
    assert SumYears(2060, 2069) == 3278;
    assert SumYears(2060, 2070) == 3662;
    assert SumYears(2060, 2071) == 4016;
    assert SumYears(2060, 2072) == 4400;
    assert SumYears(2060, 2073) == 4754;
    assert SumYears(2060, 2074) == 5108;
    assert SumYears(2060, 2075) == 5492;
    assert SumYears(2060, 2076) == 5847;
    assert SumYears(2060, 2077) == 6201;
    assert SumYears(2060, 2078) == 6585;
    assert SumYears(2060, 2079) == 6940;
  }

  lemma YearsFrom2080()
    ensures SumYears(2080, 2100) == 7323
  {
    assert SumYears(2080, 2081) == 384;
    assert SumYears(2080, 2082) == 738;
    assert SumYears(2080, 2083) == 1122;
    assert SumYears(2080, 2084) == 1476;
    assert SumYears(2080, 2085) == 1831;
    assert SumYears(2080, 2086) == 2215;
    assert SumYears(2080, 2087) == 2569;
    assert SumYears(2080, 2088) == 2924;
    assert SumYears(2080, 2089) == 3307;
    assert SumYears(2080, 2090) == 3661;
    assert SumYears(2080, 2091) == 4045;
    assert SumYears(2080, 2092) == 4399;
    assert SumYears(2080, 2093) == 4754;
    assert SumYears(2080, 2094) == 5138;
    assert SumYears(2080, 2095) == 5493;
    assert SumYears(2080, 2096) == 5847;
    assert SumYears(2080, 2097) == 6231;
    assert SumYears(2080, 2098) == 6585;
    assert SumYears(2080, 2099) == 6939;
  }

  lemma YearsFrom2100()
    ensures SumYears(2100, 2101) == 354
  {
  }

  /** The 201 tabulated lunar years hold 73412 days. */
  lemma TableTotal()
    ensures SumYears(1900, 2101) == 73412
  {
    YearsFrom1900(); YearsFrom1920(); YearsFrom1940(); YearsFrom1960(); YearsFrom1980();
    YearsFrom2000(); YearsFrom2020(); YearsFrom2040(); YearsFrom2060(); YearsFrom2080();
    YearsFrom2100();
    SumYearsSplit(1900, 1920, 1940);
    SumYearsSplit(1900, 1940, 1960);
    SumYearsSplit(1900, 1960, 1980);
    SumYearsSplit(1900, 1980, 2000);
    SumYearsSplit(1900, 2000, 2020);
    SumYearsSplit(1900, 2020, 2040);
    SumYearsSplit(1900, 2040, 2060);
    SumYearsSplit(1900, 2060, 2080);
    SumYearsSplit(1900, 2080, 2100);
    SumYearsSplit(1900, 2100, 2101);
  }

  /** Each year adds its days to the count, and the table's years hold more than 73383 days. */
  lemma TableEndsAfter(year: int)
    requires 1900 <= year <= 2100
    ensures SumYears(1900, year + 1) == SumYears(1900, year) + YearDays(year)
    ensures year == 2100 ==> SumYears(1900, year + 1) > 73383
  {
    if year == 2100 {
      TableTotal();
    }
  }

  // ------------------------------------------------------- supported range

  /** The day number of 1900-01-31, lunar 1900-01-01. */
  const BaseDayNumber: int := DayNumber(1900, 1, 31)

  /** The day number of 2100-12-31, the last supported date. */
  const EndDayNumber: int := DayNumber(2100, 12, 31)

  /**
   * The supported range spans 73384 days, fewer than the table's 73412
   * (`TableTotal`): every supported date falls inside a tabulated year.
   */
  lemma SupportedRange()
    ensures BaseDayNumber == 2415051
    ensures EndDayNumber - BaseDayNumber == 73383
  {
    YearTermClosedForm(1899 + 4716);
    MonthTermClosedForm(14);
    YearTermClosedForm(2100 + 4716);
    MonthTermClosedForm(13);
  }

  /**
   * The day number of `new Date(y, m - 1, d)`: a year argument in 0..99
   * means 1900..1999, and a month outside 1..12 carries into the year (a
   * day outside the month already counts on in `DayNumber`).
   */
  function DateDayNumber(y: int, m: int, d: int): (r: int)
    ensures 1 <= m <= 12 && !(0 <= y <= 99) ==> r == DayNumber(y, m, d)
    ensures 1 <= m <= 12 && 0 <= y <= 99 ==> r == DayNumber(1900 + y, m, d)
  {
    var year := (if 0 <= y <= 99 then 1900 + y else y) + (m - 1) / 12;
    DayNumber(year, (m - 1) % 12 + 1, d)
  }

  // ---------------------------------------------------------- lunar dates

  /** A lunar date; `isLeap` marks a day of the leap month. */
  datatype LunarDate = LunarDate(year: int, month: int, day: int, isLeap: bool)

  /** The months of a year: 13 with a leap month, else 12. */
  function MonthCount(e: Layout): int
  {
    if e.leapMonth == 0 then 12 else 13
  }

  /**
   * The month in slot `s`: ordinary months 1..12 in order, with the leap
   * month in the slot right after the ordinary month of the same number.
   */
  function SlotMonth(e: Layout, s: int): (month: int)
    requires ValidLayout(e) && 0 <= s < MonthCount(e)
    ensures 1 <= month <= 12
  {
    if e.leapMonth == 0 || s < e.leapMonth then s + 1 else s
  }

  /** Slot `s` holds the leap month. */
  predicate SlotIsLeap(e: Layout, s: int)
  {
    e.leapMonth != 0 && s == e.leapMonth
  }

  /** The length of a month: the leap month's, or the ordinary month's. */
  function MonthLength(e: Layout, month: int, isLeap: bool): (r: int)
    requires ValidLayout(e) && 1 <= month <= 12
  {
    if isLeap then e.leapDays else e.monthDays[month - 1]
  }

  /** The days of a year before slot `s`. */
  function SlotStart(e: Layout, s: int): (r: int)
    requires ValidLayout(e) && 0 <= s <= MonthCount(e)
    ensures 29 * s <= r <= 30 * s
  {
    if s == 0 then 0
    else SlotStart(e, s - 1) + MonthLength(e, SlotMonth(e, s - 1), SlotIsLeap(e, s - 1))
  }

  /**
   * The slot of month `month` (the leap one when `isLeap`); month 13 stands
   * for the end of the year. Slot and month determine each other.
   */
  function SlotOf(e: Layout, month: int, isLeap: bool): (s: int)
    requires ValidLayout(e)
    requires 1 <= month <= 13 && (isLeap ==> month == e.leapMonth)
    ensures 0 <= s <= MonthCount(e)
    ensures month == 13 ==> s == MonthCount(e)
    ensures month <= 12 ==> s < MonthCount(e) && SlotMonth(e, s) == month && SlotIsLeap(e, s) == isLeap
  {
    if e.leapMonth != 0 && (month > e.leapMonth || (month == e.leapMonth && isLeap)) then month else month - 1
  }

  /** A lunar date inside the table whose day lies within its month. */
  predicate ValidLunar(x: LunarDate)
  {
    1900 <= x.year <= 2100 && 1 <= x.month <= 12 &&
    (x.isLeap ==> x.month == LeapMonth(x.year)) &&
    1 <= x.day <= MonthLength(YearLayout(x.year), x.month, x.isLeap)
  }

  /** The readers report a month's length as the layout has it. */
  lemma MonthLengthRead(year: int, month: int, isLeap: bool)
    requires 1 <= month <= 12
    ensures MonthLength(YearLayout(year), month, isLeap) == if isLeap then LeapDays(year) else MonthDays(year, month)
  {
  }

  /** The days from lunar 1900-01-01 to a valid lunar date. */
  function OffsetOf(x: LunarDate): int
    requires ValidLunar(x)
  {
    var e := YearLayout(x.year);
    SumYears(1900, x.year) + SlotStart(e, SlotOf(e, x.month, x.isLeap)) + x.day - 1
  }

  /**
   * Before the leap month the slots hold the ordinary months; after it they
   * hold one ordinary month fewer plus the leap month.
   */
  lemma {:induction false} SlotStartByMonths(e: Layout, s: int)
    requires ValidLayout(e) && 0 <= s <= MonthCount(e)
    ensures e.leapMonth == 0 || s <= e.leapMonth ==> SlotStart(e, s) == MonthsTotal(e, s)
    ensures e.leapMonth != 0 && s > e.leapMonth ==> SlotStart(e, s) == MonthsTotal(e, s - 1) + e.leapDays
  {
    if s > 0 {
      SlotStartByMonths(e, s - 1);
    }
  }

  /** The slots of a year add up to its days. */
  lemma SlotsCoverYear(year: int)
    ensures SlotStart(YearLayout(year), MonthCount(YearLayout(year))) == YearDays(year)
  {
    var e := YearLayout(year);
    SlotStartByMonths(e, MonthCount(e));
    YearDaysByMonths(year);
  }

  /**
   * One step of the month walk: the slot after month `month` (the leap one
   * when `isLeap`) is the leap month when `month` is the leap month's
   * number and the walk has not yet been through it, else the next
   * ordinary month.
   */
  lemma SlotStep(e: Layout, month: int, isLeap: bool)
    requires ValidLayout(e) && 1 <= month <= 12 && (isLeap ==> month == e.leapMonth)
    ensures e.leapMonth != 0 && month == e.leapMonth && !isLeap ==>
      SlotStart(e, SlotOf(e, month, true)) == SlotStart(e, SlotOf(e, month, isLeap)) + MonthLength(e, month, isLeap)
    ensures !(e.leapMonth != 0 && month == e.leapMonth && !isLeap) ==>
      SlotStart(e, SlotOf(e, month + 1, false)) == SlotStart(e, SlotOf(e, month, isLeap)) + MonthLength(e, month, isLeap)
  {
  }

  /** A later slot starts no earlier than the end of an earlier one. */
  lemma {:induction false} SlotStartGrows(e: Layout, s: int, t: int)
    requires ValidLayout(e) && 0 <= s < t <= MonthCount(e)
    ensures SlotStart(e, s) + MonthLength(e, SlotMonth(e, s), SlotIsLeap(e, s)) <= SlotStart(e, t)
    decreases t
  {
    if s + 1 < t {
      SlotStartGrows(e, s, t - 1);
    }
  }

  /** A later year starts no earlier than the end of an earlier one. */
  lemma {:induction false} YearStartGrows(a: int, b: int)
    requires 1900 <= a < b
    ensures SumYears(1900, a) + YearDays(a) <= SumYears(1900, b)
    decreases b
  {
    if a + 1 < b {
      YearStartGrows(a, b - 1);
    }
  }

  /** A valid date lies inside its year. */
  lemma DayWithinYear(x: LunarDate)
    requires ValidLunar(x)
    ensures 0 <= OffsetOf(x) - SumYears(1900, x.year) < YearDays(x.year)
  {
    var e := YearLayout(x.year);
    SlotsCoverYear(x.year);
    SlotStartGrows(e, SlotOf(e, x.month, x.isLeap), MonthCount(e));
  }

  /** Distinct valid lunar dates have distinct offsets. */
  lemma OffsetOfInjective(a: LunarDate, b: LunarDate)
    requires ValidLunar(a) && ValidLunar(b)
    ensures OffsetOf(a) == OffsetOf(b) <==> a == b
  {
    DayWithinYear(a);
    DayWithinYear(b);
    if a.year < b.year {
      YearStartGrows(a.year, b.year);
    } else if b.year < a.year {
      YearStartGrows(b.year, a.year);
    } else {
      var e := YearLayout(a.year);
      var sa, sb := SlotOf(e, a.month, a.isLeap), SlotOf(e, b.month, b.isLeap);
      if sa < sb {
        SlotStartGrows(e, sa, sb);
      } else if sb < sa {
        SlotStartGrows(e, sb, sa);
      } else {
        assert a.month == SlotMonth(e, sa) == b.month;
        assert a.isLeap == SlotIsLeap(e, sa) == b.isLeap;
      }
    }
  }

  // ------------------------------------------------------------ conversion

  /** A day number between 1900-01-31 and 2100-12-31. */
  predicate InSupportedRange(dayNumber: int)
  {
    BaseDayNumber <= dayNumber <= EndDayNumber
  }

  /**
   * The year loop of `gregorianToLunar`: whole lunar years are taken off the
   * offset until it falls inside one, which for a supported date happens
   * before the table ends.
   */
  method LocateYear(offset0: int) returns (lunarYear: int, offset: int)
    requires 0 <= offset0 <= 73383
    ensures 1900 <= lunarYear <= 2100
    ensures offset == offset0 - SumYears(1900, lunarYear)
    ensures 0 <= offset < YearDays(lunarYear)
  {
    lunarYear, offset := 1900, offset0;
    while lunarYear < 2101
      invariant 1900 <= lunarYear <= 2100
      invariant offset == offset0 - SumYears(1900, lunarYear) && offset >= 0
    {
      var yearDays := LunarYearDays(lunarYear);
      if offset < yearDays {
        break;
      }
      TableEndsAfter(lunarYear);
      offset := offset - yearDays;
      lunarYear := lunarYear + 1;
    }
  }

  /**
   * The month loop of `gregorianToLunar`, corrected: after the leap month
   * the walk moves on to the next ordinary month. An offset inside the year
   * always lands on a month, and the date found lies at that offset.
   */
  method WalkMonths(lunarYear: int, yearOffset: int) returns (r: Option<LunarDate>)
    requires 1900 <= lunarYear <= 2100 && 0 <= yearOffset < YearDays(lunarYear)
    ensures r.Some? && ValidLunar(r.value) && r.value.year == lunarYear
    ensures OffsetOf(r.value) == SumYears(1900, lunarYear) + yearOffset
  {
    ghost var e := YearLayout(lunarYear);
    SlotsCoverYear(lunarYear);
    var offset := yearOffset;
    var leapMonth := LeapMonth(lunarYear);
    var lunarMonth := 1;
    var isLeap := false;
    while lunarMonth <= 12
      invariant 1 <= lunarMonth <= 13
      invariant isLeap ==> leapMonth != 0 && lunarMonth == leapMonth
      invariant 0 <= offset
      invariant yearOffset == SlotStart(e, SlotOf(e, lunarMonth, isLeap)) + offset
      decreases 13 - lunarMonth, if isLeap then 0 else 1
    {
      var monthDays := if isLeap then LeapDays(lunarYear) else MonthDays(lunarYear, lunarMonth);
      MonthLengthRead(lunarYear, lunarMonth, isLeap);
      if offset < monthDays {
        return Some(LunarDate(lunarYear, lunarMonth, offset + 1, isLeap));
      }
      SlotStep(e, lunarMonth, isLeap);
      offset := offset - monthDays;
      if leapMonth != 0 && lunarMonth == leapMonth && !isLeap {
        isLeap := true;
      } else {
        isLeap := false;
        lunarMonth := lunarMonth + 1;
      }
    }
    return None;
  }

  /**
   * `gregorianToLunar`, with the month walk corrected. Outside the supported
   * range there is no lunar date; inside it the result is the valid lunar
   * date whose offset from 1900-01-31 is the civil date's, which by
   * `OffsetOfInjective` is the only one.
   */
  method GregorianToLunar(y: int, m: int, d: int) returns (r: Option<LunarDate>)
    ensures r.None? <==> !InSupportedRange(DateDayNumber(y, m, d))
    ensures r.Some? ==> ValidLunar(r.value) && OffsetOf(r.value) == DateDayNumber(y, m, d) - BaseDayNumber
  {
    var target := DateDayNumber(y, m, d);
    if target < BaseDayNumber || target > EndDayNumber {
      return None;
    }
    SupportedRange();
    var lunarYear, offset := LocateYear(target - BaseDayNumber);
    r := WalkMonths(lunarYear, offset);
  }

  // ------------------------------------------------ the month walk as written

  /**
   * The month walk of `gregorianToLunar` as written: after the leap month
   * the walk clears `isLeap` but stays on the same month number, so it goes
   * through that ordinary month again instead of the next one.
   */
  function MonthWalkAsWritten(year: int, e: Layout, month: int, isLeap: bool, offset: int): (r: Option<LunarDate>)
    requires ValidLayout(e) && 1 <= month <= 13 && 0 <= offset && (isLeap ==> month == e.leapMonth)
    ensures r.Some? ==> r.value.year == year && 1 <= r.value.month <= 12 && 1 <= r.value.day <= 30
    decreases offset
  {
    if month > 12 then None
    else
      var days := MonthLength(e, month, isLeap);
      if offset < days then Some(LunarDate(year, month, offset + 1, isLeap))
      else if e.leapMonth != 0 && month == e.leapMonth && !isLeap then MonthWalkAsWritten(year, e, month, true, offset - days)
      else if isLeap then MonthWalkAsWritten(year, e, month, false, offset - days)
      else MonthWalkAsWritten(year, e, month + 1, false, offset - days)
  }

  /** The month loop of `gregorianToLunar` as written. */
  method WalkMonthsAsWritten(lunarYear: int, yearOffset: int) returns (r: Option<LunarDate>)
    requires 1900 <= lunarYear <= 2100 && 0 <= yearOffset
    ensures r == MonthWalkAsWritten(lunarYear, YearLayout(lunarYear), 1, false, yearOffset)
  {
    ghost var e := YearLayout(lunarYear);
    var offset := yearOffset;
    var leapMonth := LeapMonth(lunarYear);
    var lunarMonth := 1;
    var isLeap := false;
    while lunarMonth <= 12
      invariant 1 <= lunarMonth <= 13 && 0 <= offset
      invariant isLeap ==> leapMonth != 0 && lunarMonth == leapMonth
      invariant MonthWalkAsWritten(lunarYear, e, lunarMonth, isLeap, offset) ==
        MonthWalkAsWritten(lunarYear, e, 1, false, yearOffset)
      decreases offset
    {
      var monthDays := if isLeap then LeapDays(lunarYear) else MonthDays(lunarYear, lunarMonth);
      MonthLengthRead(lunarYear, lunarMonth, isLeap);
      if offset < monthDays {
        return Some(LunarDate(lunarYear, lunarMonth, offset + 1, isLeap));
      }
      offset := offset - monthDays;
      if leapMonth != 0 && lunarMonth == leapMonth && !isLeap {
        isLeap := true;
      } else if isLeap {
        isLeap := false;
      } else {
        lunarMonth := lunarMonth + 1;
      }
    }
    return None;
  }

  /**
   * In a year with a leap month the walk as written always stops, but never
   * past the leap month's number: the days after the leap month are all
   * given dates of that month or earlier.
   */
  lemma {:induction false} AsWrittenNeverPassesLeapMonth(year: int, e: Layout, month: int, isLeap: bool, offset: int)
    requires ValidLayout(e) && e.leapMonth != 0 && 1 <= month <= e.leapMonth && 0 <= offset
    requires isLeap ==> month == e.leapMonth
    ensures MonthWalkAsWritten(year, e, month, isLeap, offset).Some?
    ensures MonthWalkAsWritten(year, e, month, isLeap, offset).value.month <= e.leapMonth
    decreases offset
  {
    var days := MonthLength(e, month, isLeap);
    if offset >= days {
      if month == e.leapMonth && !isLeap {
        AsWrittenNeverPassesLeapMonth(year, e, month, true, offset - days);
      } else if isLeap {
        AsWrittenNeverPassesLeapMonth(year, e, month, false, offset - days);
      } else {
        AsWrittenNeverPassesLeapMonth(year, e, month + 1, false, offset - days);
      }
    }
  }

  /**
   * 1900 has a leap eighth month. The civil date 1900-10-23, 265 days after
   * 1900-01-31, is the first day of the ninth lunar month; the walk as
   * written gives it the first day of the eighth month, the date it also
   * gives 1900-08-25 (206 days after 1900-01-31).
   */
  lemma AsWrittenMisdates1900()
    ensures DateDayNumber(1900, 10, 23) - BaseDayNumber == 265
    ensures DateDayNumber(1900, 8, 25) - BaseDayNumber == 206
    ensures MonthWalkAsWritten(1900, YearLayout(1900), 1, false, 265) == Some(LunarDate(1900, 8, 1, false))
    ensures MonthWalkAsWritten(1900, YearLayout(1900), 1, false, 206) == Some(LunarDate(1900, 8, 1, false))
    ensures ValidLunar(LunarDate(1900, 9, 1, false)) && OffsetOf(LunarDate(1900, 9, 1, false)) == 265
  {
    Dates1900();
    Layout1900();
    SupportedRange();
  }

  /** 1900-10-23 and 1900-08-25 are 265 and 206 days after 1900-01-31. */
  lemma Dates1900()
    ensures DateDayNumber(1900, 10, 23) - BaseDayNumber == 265
    ensures DateDayNumber(1900, 8, 25) - BaseDayNumber == 206
  {
    SupportedRange();
    assert DayNumber(1900, 10, 23) == CivilDayNumber(1900, 10, 23) == 2415316;
    assert DayNumber(1900, 8, 25) == CivilDayNumber(1900, 8, 25) == 2415257;
  }

  /** The layout of lunar 1900: a leap eighth month of 29 days. */
  lemma Layout1900()
    ensures YearLayout(1900) == Layout(8, 29, [29, 30, 29, 29, 30, 29, 30, 30, 30, 30, 29, 30])
  {
  }

  /**
   * 2024-02-10, 45300 days after 1900-01-31, is the first day of the first
   * lunar month of 2024 (the lunar new year): the only valid lunar date at
   * that offset, so the date `GregorianToLunar` returns for it.
   */
  lemma LunarNewYear2024()
    ensures InSupportedRange(DateDayNumber(2024, 2, 10))
    ensures ValidLunar(LunarDate(2024, 1, 1, false))
    ensures OffsetOf(LunarDate(2024, 1, 1, false)) == DateDayNumber(2024, 2, 10) - BaseDayNumber == 45300
  {
    YearsBefore2024();
    DayNumber2024();
  }

  /** The lunar years 1900..2023 hold 45300 days. */
  lemma YearsBefore2024()
    ensures SumYears(1900, 2024) == 45300
  {
    YearsFrom1900(); YearsFrom1920(); YearsFrom1940(); YearsFrom1960(); YearsFrom1980(); YearsFrom2000();
    SumYearsSplit(1900, 1920, 1940);
    SumYearsSplit(1900, 1940, 1960);
    SumYearsSplit(1900, 1960, 1980);
    SumYearsSplit(1900, 1980, 2000);
    SumYearsSplit(1900, 2000, 2020);
    YearsFrom2020To2024();
    SumYearsSplit(1900, 2020, 2024);
  }

  /** The lunar years 2020..2023 hold 1477 days. */
  lemma YearsFrom2020To2024()
    ensures SumYears(2020, 2024) == 1477
  {
    assert SumYears(2020, 2021) == 384;
    assert SumYears(2020, 2022) == 738;
    assert SumYears(2020, 2023) == 1093;
  }

  /** 2024-02-10 is 45300 days after 1900-01-31. */
  lemma DayNumber2024()
    ensures DateDayNumber(2024, 2, 10) - BaseDayNumber == 45300
  {
    SupportedRange();
    YearTermClosedForm(2023 + 4716);
    MonthTermClosedForm(15);
  }
}
