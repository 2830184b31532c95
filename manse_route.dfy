/**
 * The request helpers of the `/api/manse` route: the date and time
 * parameter parsers, the ISO-like timestamp formatter, the snapping of ages
 * to whole years, the timestamp trimmer and the derivation of the sex flag
 * from the query parameters. The handler itself (URL parsing, the JSON
 * response) is not part of this model.
 */
module ManseRoute {
  import opened Wrappers
  import opened JsNumbers
  import opened JsStrings

  // --------------------------------------------------------------- date

  /** A parsed `date` parameter: year, month and day as JavaScript numbers. */
  datatype DateParts = DateParts(y: real, m: real, d: real)

  /** A parsed `time` parameter. */
  datatype TimeParts = TimeParts(hh: real, mm: real)

  /**
   * `parseDate`: three `-`-separated numbers with the month in 1..12 and the
   * day in 1..31, and exactly those; a missing or empty parameter, any other
   * number of parts, a NaN part or an out-of-range month or day gives `null`. Neither
   * integrality nor the length of the month is checked. (`parts.map(Number)`
   * followed by the length and NaN checks reads each part through `Number`.)
   */
  function ParseDate(date: Option<string>): (r: Option<DateParts>)
    ensures date.None? || date == Some("") ==> r.None?
    ensures r.Some? ==> 1.0 <= r.value.m <= 12.0 && 1.0 <= r.value.d <= 31.0
    ensures r.Some? ==> (|Split(date.value, '-')| == 3 &&
      ToNumber(Split(date.value, '-')[0]) == Some(r.value.y) &&
      ToNumber(Split(date.value, '-')[1]) == Some(r.value.m) &&
      ToNumber(Split(date.value, '-')[2]) == Some(r.value.d))
    ensures r.Some? <==> (date.Some? && date.value != "" && |Split(date.value, '-')| == 3 &&
      ToNumber(Split(date.value, '-')[0]).Some? &&
      ToNumber(Split(date.value, '-')[1]).Some? && ToNumber(Split(date.value, '-')[2]).Some? &&
      1.0 <= ToNumber(Split(date.value, '-')[1]).value <= 12.0 &&
      1.0 <= ToNumber(Split(date.value, '-')[2]).value <= 31.0)
  {
    if date.None? || date.value == "" then None
    else
      var parts := Split(date.value, '-');
      if |parts| != 3 then None
      else
        var y, m, d := ToNumber(parts[0]), ToNumber(parts[1]), ToNumber(parts[2]);
        if y.None? || m.None? || d.None? then None
        else if m.value < 1.0 || m.value > 12.0 || d.value < 1.0 || d.value > 31.0 then None
        else Some(DateParts(y.value, m.value, d.value))
  }

  /**
   * `parseTime`: a missing parameter stands for "12:00"; otherwise exactly
   * two `:`-separated numbers with the hour in 0..23 and the minute in
   * 0..59 are accepted, and `null` is returned for anything else, the empty
   * string included.
   */
  function ParseTime(time: Option<string>): (r: Option<TimeParts>)
    ensures r.Some? ==> 0.0 <= r.value.hh <= 23.0 && 0.0 <= r.value.mm <= 59.0
    ensures r.Some? ==> (var value := if time.None? then "12:00" else time.value;
      |Split(value, ':')| == 2 &&
      ToNumber(Split(value, ':')[0]) == Some(r.value.hh) &&
      ToNumber(Split(value, ':')[1]) == Some(r.value.mm))
    ensures r.Some? <==> (var value := if time.None? then "12:00" else time.value;
      |Split(value, ':')| == 2 &&
      ToNumber(Split(value, ':')[0]).Some? && ToNumber(Split(value, ':')[1]).Some? &&
      0.0 <= ToNumber(Split(value, ':')[0]).value <= 23.0 &&
      0.0 <= ToNumber(Split(value, ':')[1]).value <= 59.0)
  {
    var value := if time.None? then "12:00" else time.value;
    var parts := Split(value, ':');
    if |parts| != 2 then None
    else
      var hh, mm := ToNumber(parts[0]), ToNumber(parts[1]);
      if hh.None? || mm.None? then None
      else if hh.value < 0.0 || hh.value > 23.0 || mm.value < 0.0 || mm.value > 59.0 then None
      else Some(TimeParts(hh.value, mm.value))
  }

  /** Without a `time` parameter the time is noon. */
  lemma ParseTimeDefault()
    ensures ParseTime(None) == Some(TimeParts(12.0, 0.0))
  {
    NoonDigits();
    assert "12" + ":" + "00" == "12:00";
    ParseTimeOfDigits("12", "00");
  }

  /** The digit strings of the default time read as twelve and zero. */
  lemma NoonDigits()
    ensures AllDigits("12") && AllDigits("00")
    ensures DigitsValue("12") == 12 && DigitsValue("00") == 0
  {
    assert "12"[..1] == "1" && "00"[..1] == "0" && "1"[..0] == "" && "0"[..0] == "";
    assert DigitsValue("1") == 1 && DigitsValue("0") == 0;
  }

  /** An empty `time` parameter is rejected, not defaulted. */
  lemma ParseTimeEmpty()
    ensures ParseTime(Some("")) == None
  {
    assert Split("", ':') == [""];
  }

  // ------------------------------------------------------------- format

  /** `pad(n, len)`: the integer's digits, zero-padded to at least `len` characters. */
  function Pad(n: int, len: int): (r: string)
    ensures |r| >= len && |r| >= |IntToString(n)|
  {
    PadStart(IntToString(n), len, '0')
  }

  /**
   * `formatIso`: `YYYY-MM-DDThh:mm:00` for whole-number fields, each padded
   * with zeros to at least its width and never truncated.
   */
  function FormatIso(y: int, m: int, d: int, hh: int, mm: int): (r: string)
    ensures |r| >= 19
  {
    Pad(y, 4) + "-" + Pad(m, 2) + "-" + Pad(d, 2) + "T" + Pad(hh, 2) + ":" + Pad(mm, 2) + ":00"
  }

  /** A number below `10^k` has at most `k` digits. */
  lemma {:induction false} DigitCount(n: nat, k: nat)
    requires k >= 1 && n < Pow10(k)
    ensures |NatToString(n)| <= k
  {
    if n >= 10 {
      DigitCount(n / 10, k - 1);
    }
  }

  /** A field within its width is padded to exactly that width, and its digits read back as it. */
  lemma PadExact(n: int, len: nat)
    requires len >= 1 && 0 <= n < Pow10(len)
    ensures |Pad(n, len)| == len && AllDigits(Pad(n, len)) && DigitsValue(Pad(n, len)) == n
  {
    DigitCount(n, len);
    PaddedValue(n, len);
  }

  /** Where the fields of a `YYYY-MM-DDThh:mm:00` layout sit. */
  lemma StampLayout(a: string, b: string, c: string, e: string, f: string)
    requires |a| == 4 && |b| == 2 && |c| == 2 && |e| == 2 && |f| == 2
    ensures var r := a + "-" + b + "-" + c + "T" + e + ":" + f + ":00";
      |r| == 19 && r[10] == 'T' && r[16..] == ":00" &&
      r[..10] == a + "-" + b + "-" + c && r[11..16] == e + ":" + f
  {
    var date := a + "-" + b + "-" + c;
    var time := e + ":" + f;
    var r := a + "-" + b + "-" + c + "T" + e + ":" + f + ":00";
    assert r == date + "T" + time + ":00";
  }

  /**
   * For a year 0..9999 and two-digit fields, the timestamp is 19 characters:
   * the date at 0..10, `T` at 10, the time at 11..16 and `:00` last.
   */
  lemma FormatIsoLayout(y: int, m: int, d: int, hh: int, mm: int)
    requires 0 <= y <= 9999 && 0 <= m <= 99 && 0 <= d <= 99 && 0 <= hh <= 99 && 0 <= mm <= 99
    ensures var r := FormatIso(y, m, d, hh, mm);
      |r| == 19 && r[10] == 'T' && r[16..] == ":00" &&
      r[..10] == Pad(y, 4) + "-" + Pad(m, 2) + "-" + Pad(d, 2) &&
      r[11..16] == Pad(hh, 2) + ":" + Pad(mm, 2)
  {
    PadExact(y, 4);
    PadExact(m, 2);
    PadExact(d, 2);
    PadExact(hh, 2);
    PadExact(mm, 2);
    StampLayout(Pad(y, 4), Pad(m, 2), Pad(d, 2), Pad(hh, 2), Pad(mm, 2));
  }

  /** A padded field is read back by `Number` as its value. */
  lemma ReadPadded(n: int, len: nat)
    requires len >= 1 && 0 <= n < Pow10(len)
    ensures ToNumber(Pad(n, len)) == Some(n as real)
  {
    PadExact(n, len);
  }

  /** Three `-`-separated digit strings parse as their values when the month and day are in range. */
  lemma ParseDateOfDigits(a: string, b: string, c: string)
    requires |a| > 0 && |b| > 0 && |c| > 0 && AllDigits(a) && AllDigits(b) && AllDigits(c)
    requires 1 <= DigitsValue(b) <= 12 && 1 <= DigitsValue(c) <= 31
    ensures ParseDate(Some(a + "-" + b + "-" + c)) ==
      Some(DateParts(DigitsValue(a) as real, DigitsValue(b) as real, DigitsValue(c) as real))
  {
    assert !IsDigit('-');
    SplitThree(a, b, c, '-');
    ParseDateOfPieces(a + "-" + b + "-" + c, a, b, c);
  }

  /** A date that splits into three digit strings in range parses as their values. */
  lemma ParseDateOfPieces(s: string, a: string, b: string, c: string)
    requires |a| > 0 && |b| > 0 && |c| > 0 && AllDigits(a) && AllDigits(b) && AllDigits(c)
    requires 1 <= DigitsValue(b) <= 12 && 1 <= DigitsValue(c) <= 31
    requires s != "" && Split(s, '-') == [a, b, c]
    ensures ParseDate(Some(s)) ==
      Some(DateParts(DigitsValue(a) as real, DigitsValue(b) as real, DigitsValue(c) as real))
  {
  }

  /** A time that splits into two digit strings in range parses as their values. */
  lemma ParseTimeOfPieces(s: string, a: string, b: string)
    requires |a| > 0 && |b| > 0 && AllDigits(a) && AllDigits(b)
    requires DigitsValue(a) <= 23 && DigitsValue(b) <= 59
    requires Split(s, ':') == [a, b]
    ensures ParseTime(Some(s)) == Some(TimeParts(DigitsValue(a) as real, DigitsValue(b) as real))
  {
  }

  /**
   * Round trip: the date part of a formatted timestamp with a valid month
   * and day parses back to the same year, month and day; the day is only
   * bounded by 31, so a date such as 2023-02-31 is accepted too.
   */
  lemma ParseDateOfFormatted(y: int, m: int, d: int, hh: int, mm: int)
    requires 0 <= y <= 9999 && 1 <= m <= 12 && 1 <= d <= 31 && 0 <= hh <= 99 && 0 <= mm <= 99
    ensures ParseDate(Some(FormatIso(y, m, d, hh, mm)[..10])) == Some(DateParts(y as real, m as real, d as real))
  {
    FormatIsoLayout(y, m, d, hh, mm);
    PadExact(y, 4);
    PadExact(m, 2);
    PadExact(d, 2);
    ParseDateOfDigits(Pad(y, 4), Pad(m, 2), Pad(d, 2));
  }

  /** Two `:`-separated digit strings parse as their values when the hour and minute are in range. */
  lemma ParseTimeOfDigits(a: string, b: string)
    requires |a| > 0 && |b| > 0 && AllDigits(a) && AllDigits(b)
    requires DigitsValue(a) <= 23 && DigitsValue(b) <= 59
    ensures ParseTime(Some(a + ":" + b)) == Some(TimeParts(DigitsValue(a) as real, DigitsValue(b) as real))
  {
    assert !IsDigit(':');
    SplitTwo(a, b, ':');
    ParseTimeOfPieces(a + ":" + b, a, b);
  }

  /** Round trip: the time part of a formatted timestamp parses back to the same hour and minute. */
  lemma ParseTimeOfFormatted(y: int, m: int, d: int, hh: int, mm: int)
    requires 0 <= y <= 9999 && 0 <= m <= 99 && 0 <= d <= 99 && 0 <= hh <= 23 && 0 <= mm <= 59
    ensures ParseTime(Some(FormatIso(y, m, d, hh, mm)[11..16])) == Some(TimeParts(hh as real, mm as real))
  {
    FormatIsoLayout(y, m, d, hh, mm);
    PadExact(hh, 2);
    PadExact(mm, 2);
    ParseTimeOfDigits(Pad(hh, 2), Pad(mm, 2));
  }

  // ---------------------------------------------------------------- age

  /** A value that is a number or something else (a boolean). */
  datatype AgeValue = AgeNumber(x: real) | AgeOther(b: bool)

  /** The 1e-9 years within which an age snaps to the nearest whole year. */
  const AgeEps: real := 0.000000001

  /**
   * `normalizeAgeYears`: a non-number passes through; a number within 1e-9
   * of its `Math.round` becomes that whole number, any other stays as it is.
   */
  function NormalizeAgeYears(age: AgeValue): (r: AgeValue)
    ensures age.AgeOther? ==> r == age
    ensures age.AgeNumber? ==> r.AgeNumber? && Abs(r.x - age.x) < AgeEps
    ensures age.AgeNumber? && r.x != age.x ==> r.x == Round(age.x) as real
    ensures age.AgeNumber? && Abs(age.x - Round(age.x) as real) < AgeEps ==> r == AgeNumber(Round(age.x) as real)
    ensures age.AgeNumber? && Abs(age.x - Round(age.x) as real) >= AgeEps ==> r == age
  {
    match age
    case AgeOther(_) => age
    case AgeNumber(x) =>
      var nearest := Round(x);
      if Abs(x - nearest as real) < AgeEps then AgeNumber(nearest as real) else age
  }

  /** Normalising an age twice is normalising it once. */
  lemma NormalizeAgeYearsIdempotent(age: AgeValue)
    ensures NormalizeAgeYears(NormalizeAgeYears(age)) == NormalizeAgeYears(age)
  {
    if age.AgeNumber? {
      var r := NormalizeAgeYears(age);
      if r.x != age.x {
        var n := Round(age.x);
        assert Round(n as real) == n;
      }
    }
  }

  // ---------------------------------------------------------- timestamp

  /**
   * `isoToYmdhm`: `null` for a missing or empty stamp; otherwise the first
   * `T` becomes a space and at most 16 characters are kept.
   */
  function IsoToYmdhm(stamp: Option<string>): (r: Option<string>)
    ensures r.None? <==> stamp.None? || stamp == Some("")
    ensures r.Some? ==> |r.value| == if |stamp.value| < 16 then |stamp.value| else 16
  {
    if stamp.None? || stamp.value == "" then None
    else Some(Prefix(ReplaceFirst(stamp.value, 'T', ' '), 16))
  }

  /** A stamp laid out as `YYYY-MM-DDThh:mm:00` from digit fields becomes `YYYY-MM-DD hh:mm`. */
  lemma StampToYmdhm(a: string, b: string, c: string, e: string, f: string)
    requires |a| == 4 && |b| == 2 && |c| == 2 && |e| == 2 && |f| == 2
    requires AllDigits(a) && AllDigits(b) && AllDigits(c)
    ensures IsoToYmdhm(Some(a + "-" + b + "-" + c + "T" + e + ":" + f + ":00")) ==
      Some(a + "-" + b + "-" + c + " " + e + ":" + f)
  {
    var s := a + "-" + b + "-" + c + "T" + e + ":" + f + ":00";
    StampLayout(a, b, c, e, f);
    var date := a + "-" + b + "-" + c;
    assert 'T' !in date by {
      assert !IsDigit('T');
      assert forall i :: 0 <= i < 10 ==> date[i] == '-' || IsDigit(date[i]);
    }
    assert IndexOf(s, 'T') == 10 by {
      assert s[..10] == date;
    }
    var t := ReplaceFirst(s, 'T', ' ');
    assert Prefix(t, 16) == a + "-" + b + "-" + c + " " + e + ":" + f;
  }

  /** A formatted timestamp becomes `YYYY-MM-DD hh:mm`. */
  lemma IsoToYmdhmOfFormatted(y: int, m: int, d: int, hh: int, mm: int)
    requires 0 <= y <= 9999 && 0 <= m <= 99 && 0 <= d <= 99 && 0 <= hh <= 99 && 0 <= mm <= 99
    ensures IsoToYmdhm(Some(FormatIso(y, m, d, hh, mm))) ==
      Some(Pad(y, 4) + "-" + Pad(m, 2) + "-" + Pad(d, 2) + " " + Pad(hh, 2) + ":" + Pad(mm, 2))
  {
    PadExact(y, 4);
    PadExact(m, 2);
    PadExact(d, 2);
    PadExact(hh, 2);
    PadExact(mm, 2);
    StampToYmdhm(Pad(y, 4), Pad(m, 2), Pad(d, 2), Pad(hh, 2), Pad(mm, 2));
  }

  // ---------------------------------------------------------------- sex

  /** `searchParams.get(key)`. */
  function Get(params: map<string, string>, key: string): Option<string>
  {
    if key in params then Some(params[key]) else None
  }

  /** `a ?? b`. */
  function OrElse(a: Option<string>, b: string): string
  {
    if a.Some? then a.value else b
  }

  /** `v.toLowerCase().startsWith("f")`: the first character is `f` or `F`. */
  predicate StartsWithF(v: string)
  {
    |v| > 0 && LowerChar(v[0]) == 'f'
  }

  lemma StartsWithFCases(v: string)
    ensures StartsWithF(v) <==> |v| > 0 && (v[0] == 'f' || v[0] == 'F')
  {
  }

  /**
   * The `isFemale` derivation as written: `sex`, else `gender`, else "male",
   * lower-cased, starting with "f".
   */
  function IsFemaleAsWritten(params: map<string, string>): (r: bool)
    ensures "sex" in params ==> (r <==> StartsWithF(params["sex"]))
    ensures "sex" !in params && "gender" in params ==> (r <==> StartsWithF(params["gender"]))
    ensures "sex" !in params && "gender" !in params ==> !r
  {
    var sexParam := OrElse(Get(params, "sex"), OrElse(Get(params, "gender"), "male"));
    StartsWithF(sexParam)
  }

  /** The query the page sends: `date`, `time` and `female=true` or `male=true`. */
  function PageParams(birthDate: string, birthTime: string, female: bool): map<string, string>
  {
    map["date" := birthDate, "time" := birthTime, (if female then "female" else "male") := "true"]
  }

  /** As written, every request from the page resolves to male. */
  lemma PageSexIgnored(birthDate: string, birthTime: string, female: bool)
    ensures !IsFemaleAsWritten(PageParams(birthDate, birthTime, female))
  {
    var params := PageParams(birthDate, birthTime, female);
    assert "sex" !in params && "gender" !in params;
  }

  /**
   * The `isFemale` derivation that also honours the page's `female=true`:
   * `sex`, else `gender`, else "female" when `female` is "true", else "male".
   */
  function IsFemale(params: map<string, string>): (r: bool)
    ensures "sex" in params || "gender" in params ==> r == IsFemaleAsWritten(params)
    ensures "sex" !in params && "gender" !in params ==> (r <==> Get(params, "female") == Some("true"))
  {
    var fallback := if Get(params, "female") == Some("true") then "female" else "male";
    var sexParam := OrElse(Get(params, "sex"), OrElse(Get(params, "gender"), fallback));
    StartsWithF(sexParam)
  }

  /** With the corrected derivation the page's choice is honoured. */
  lemma PageSexHonoured(birthDate: string, birthTime: string, female: bool)
    ensures IsFemale(PageParams(birthDate, birthTime, female)) == female
  {
    var params := PageParams(birthDate, birthTime, female);
    assert "sex" !in params && "gender" !in params;
    if female {
      assert Get(params, "female") == Some("true");
    } else {
      assert "female" !in params;
    }
  }
}
