/**
 * The sexagenary (ganzhi) codec: ten heavenly stems and twelve earthly
 * branches, the two-glyph pillar codes built from them, the 0..59 cycle index
 * and the Korean reading of a code.
 *
 * A pillar code is an `Option<string>`: `None` stands for the value the
 * JavaScript code produces when it indexes a glyph table out of range (it
 * reads `undefined` and concatenates it), which is never a valid code.
 */
module Sexagenary {
  import opened Wrappers
  import opened JsNumbers

  /** The ten heavenly stems, index 0 (甲) to 9 (癸). */
  const Stems: seq<char> := ['甲', '乙', '丙', '丁', '戊', '己', '庚', '辛', '壬', '癸']

  /** The twelve earthly branches, index 0 (子) to 11 (亥). */
  const Branches: seq<char> := ['子', '丑', '寅', '卯', '辰', '巳', '午', '未', '申', '酉', '戌', '亥']

  /** Korean reading of each stem glyph. */
  const KoreanStems: map<char, string> := map[
    '甲' := "갑", '乙' := "을", '丙' := "병", '丁' := "정", '戊' := "무",
    '己' := "기", '庚' := "경", '辛' := "신", '壬' := "임", '癸' := "계"]

  /** Korean reading of each branch glyph. */
  const KoreanBranches: map<char, string> := map[
    '子' := "자", '丑' := "축", '寅' := "인", '卯' := "묘", '辰' := "진", '巳' := "사",
    '午' := "오", '未' := "미", '申' := "신", '酉' := "유", '戌' := "술", '亥' := "해"]

  /** Why a code was rejected. */
  datatype CodecError =
    | InvalidGanzhi(code: string)       // wrong length
    | InvalidGanzhiChar(code: string)   // a glyph outside the tables
    | InvalidGanzhiPair(code: string)   // no index 0..59 has this stem and branch

  /** `TEN_STEMS.indexOf(c)`: the position of a stem glyph, or -1. */
  function StemIndexOf(c: char): (r: int)
    ensures -1 <= r < 10
    ensures r >= 0 ==> Stems[r] == c
    ensures r == -1 ==> c !in Stems
  {
    match c
    case '甲' => 0 case '乙' => 1 case '丙' => 2 case '丁' => 3 case '戊' => 4
    case '己' => 5 case '庚' => 6 case '辛' => 7 case '壬' => 8 case '癸' => 9
    case _ => -1
  }

  /** `TWELVE_BRANCHES.indexOf(c)`: the position of a branch glyph, or -1. */
  function BranchIndexOf(c: char): (r: int)
    ensures -1 <= r < 12
    ensures r >= 0 ==> Branches[r] == c
    ensures r == -1 ==> c !in Branches
  {
    match c
    case '子' => 0 case '丑' => 1 case '寅' => 2 case '卯' => 3 case '辰' => 4 case '巳' => 5
    case '午' => 6 case '未' => 7 case '申' => 8 case '酉' => 9 case '戌' => 10 case '亥' => 11
    case _ => -1
  }

  /** The stem table has no repeated glyph. */
  lemma StemIndexOfStem(s: int)
    requires 0 <= s < 10
    ensures StemIndexOf(Stems[s]) == s
  {
  }

  /** The branch table has no repeated glyph. */
  lemma BranchIndexOfBranch(b: int)
    requires 0 <= b < 12
    ensures BranchIndexOf(Branches[b]) == b
  {
  }

  /** The stem index of the first glyph of `gz` (-1 when absent or unknown). */
  function StemIndex(gz: string): (r: int)
    ensures -1 <= r < 10
    ensures r >= 0 <==> |gz| >= 1 && gz[0] in Stems
    ensures r >= 0 ==> Stems[r] == gz[0]
  {
    if |gz| >= 1 then StemIndexOf(gz[0]) else -1
  }

  /** The branch index of the second glyph of `gz` (-1 when absent or unknown). */
  function BranchIndex(gz: string): (r: int)
    ensures -1 <= r < 12
    ensures r >= 0 <==> |gz| >= 2 && gz[1] in Branches
    ensures r >= 0 ==> Branches[r] == gz[1]
  {
    if |gz| >= 2 then BranchIndexOf(gz[1]) else -1
  }

  /**
   * `TEN_STEMS[s] + TWELVE_BRANCHES[b]` for integer positions: a code
   * exactly when both positions are inside their tables.
   */
  function Pair(s: int, b: int): (r: Option<string>)
    ensures r.Some? <==> 0 <= s < 10 && 0 <= b < 12
    ensures r.Some? ==> |r.value| == 2 && StemIndex(r.value) == s && BranchIndex(r.value) == b
  {
    if 0 <= s < 10 && 0 <= b < 12 then
      StemIndexOfStem(s);
      BranchIndexOfBranch(b);
      Some([Stems[s], Branches[b]])
    else None
  }

  /**
   * `ganzhiFromIndex`: stem `i % 10` and branch `i % 12`, JavaScript
   * remainders. Every index from 0 up has a code, and a code, when there
   * is one, carries the stem and branch of the index counted mod 10 and 12.
   */
  function GanzhiFromIndex(i: int): (r: Option<string>)
    ensures i >= 0 ==> r.Some?
    ensures r.Some? ==> StemIndex(r.value) == i % 10 && BranchIndex(r.value) == i % 12
  {
    Pair(JsRem(i, 10), JsRem(i, 12))
  }

  /**
   * The text `ganzhiFromIndex` returns, outside the tables too: a missing
   * glyph reads as `undefined`, and two missing glyphs add up to `NaN`.
   * It is the code whenever there is one, and otherwise never two
   * characters long; its first character is a stem exactly when the stem
   * position is not negative.
   */
  function GanzhiTextAsWritten(i: int): (r: string)
    ensures GanzhiFromIndex(i).Some? ==> r == GanzhiFromIndex(i).value
    ensures GanzhiFromIndex(i).None? ==> |r| != 2
    ensures |r| >= 1 && (r[0] in Stems <==> JsRem(i, 10) >= 0)
  {
    var s, b := JsRem(i, 10), JsRem(i, 12);
    if s < 0 && b < 0 then "NaN"
    else GlyphText(Stems, s) + GlyphText(Branches, b)
  }

  /** `table[k]` as text: the glyph, or `undefined` outside the table. */
  function GlyphText(table: seq<char>, k: int): (r: string)
    ensures 0 <= k < |table| ==> r == [table[k]]
    ensures !(0 <= k < |table|) ==> r == "undefined"
  {
    if 0 <= k < |table| then [table[k]] else "undefined"
  }

  /** A stem and a branch that some index 0..59 carries: equal parity. */
  predicate ValidPair(s: int, b: int)
  {
    0 <= s < 10 && 0 <= b < 12 && s % 2 == b % 2
  }

  /**
   * The index 0..59 whose stem is `s` and branch is `b`, in closed form
   * (Chinese remainder theorem for moduli 10 and 12).
   */
  function I60Of(s: int, b: int): (r: int)
    requires ValidPair(s, b)
    ensures 0 <= r < 60 && r % 10 == s && r % 12 == b
  {
    var h := (s - b) / 2;
    assert s - b == 2 * h;
    var r := (6 * s - 5 * b) % 60;
    var k := (6 * s - 5 * b) / 60;
    assert 6 * s - 5 * b == 60 * k + r;
    assert r == s + 10 * (h - 6 * k);
    assert r == b + 12 * (h - 5 * k);
    ModMultiple10(s, h - 6 * k);
    ModMultiple12(b, h - 5 * k);
    r
  }

  lemma ModMultiple10(x: int, k: int)
    requires 0 <= x < 10
    ensures (x + 10 * k) % 10 == x
  {
  }

  lemma ModMultiple12(x: int, k: int)
    requires 0 <= x < 12
    ensures (x + 12 * k) % 12 == x
  {
  }

  lemma ModMultiple60(x: int, k: int)
    requires 0 <= x < 60
    ensures (x + 60 * k) % 60 == x
  {
  }

  /** Every index 0..59 is recovered from its stem and branch. */
  lemma I60OfInverse(i: int)
    requires 0 <= i < 60
    ensures ValidPair(i % 10, i % 12)
    ensures I60Of(i % 10, i % 12) == i
  {
    var s, b := i % 10, i % 12;
    var q10, q12 := i / 10, i / 12;
    assert i == 10 * q10 + s && i == 12 * q12 + b;
    assert s % 2 == b % 2 by {
      assert s - b == 2 * (6 * q12 - 5 * q10);
    }
    assert 6 * s - 5 * b == i + 60 * (q12 - q10);
    ModMultiple60(i, q12 - q10);
    assert I60Of(s, b) == (6 * s - 5 * b) % 60;
  }

  /**
   * `i60FromGanzhi`: the search over 0..59 for the index carrying the stem
   * and branch of `gz`; an unknown glyph or a mixed-parity pair throws.
   */
  method I60FromGanzhi(gz: string) returns (r: Result<int, CodecError>)
    ensures r.Success? <==> ValidPair(StemIndex(gz), BranchIndex(gz))
    ensures r.Success? ==> r.value == I60Of(StemIndex(gz), BranchIndex(gz))
    ensures r.Failure? ==> r.error == InvalidGanzhiPair(gz)
  {
    var stem := StemIndex(gz);
    var branch := BranchIndex(gz);
    var i := 0;
    while i < 60
      invariant 0 <= i <= 60
      invariant forall j :: 0 <= j < i ==> !(j % 10 == stem && j % 12 == branch)
      invariant ValidPair(stem, branch) ==> i <= I60Of(stem, branch)
    {
      if i % 10 == stem && i % 12 == branch {
        I60OfInverse(i);
        return Success(i);
      }
      i := i + 1;
    }
    if ValidPair(stem, branch) {
      assert false;
    }
    return Failure(InvalidGanzhiPair(gz));
  }

  /** The Korean tables are keyed by exactly the glyphs of the two cycles. */
  lemma KoreanKeys()
    ensures forall c :: c in KoreanStems <==> c in Stems
    ensures forall c :: c in KoreanBranches <==> c in Branches
  {
  }

  /** `ganzhiToKorean`: the Korean reading of a two-glyph code. */
  function GanzhiToKorean(gz: string): (r: Result<string, CodecError>)
    ensures r.Success? <==> |gz| == 2 && gz[0] in Stems && gz[1] in Branches
    ensures r.Success? ==> |r.value| == 2
    ensures |gz| != 2 ==> r == Failure(InvalidGanzhi(gz))
    ensures |gz| == 2 && r.Failure? ==> r == Failure(InvalidGanzhiChar(gz))
  {
    KoreanKeys();
    if |gz| != 2 then Failure(InvalidGanzhi(gz))
    else if gz[0] !in KoreanStems || gz[1] !in KoreanBranches then Failure(InvalidGanzhiChar(gz))
    else Success(KoreanStems[gz[0]] + KoreanBranches[gz[1]])
  }

  /** The stem whose Korean reading is `k`, if any. */
  function StemOfKorean(k: string): Option<char>
  {
    if k == "갑" then Some('甲') else if k == "을" then Some('乙')
    else if k == "병" then Some('丙') else if k == "정" then Some('丁')
    else if k == "무" then Some('戊') else if k == "기" then Some('己')
    else if k == "경" then Some('庚') else if k == "신" then Some('辛')
    else if k == "임" then Some('壬') else if k == "계" then Some('癸')
    else None
  }

  /** The branch whose Korean reading is `k`, if any. */
  function BranchOfKorean(k: string): Option<char>
  {
    if k == "자" then Some('子') else if k == "축" then Some('丑')
    else if k == "인" then Some('寅') else if k == "묘" then Some('卯')
    else if k == "진" then Some('辰') else if k == "사" then Some('巳')
    else if k == "오" then Some('午') else if k == "미" then Some('未')
    else if k == "신" then Some('申') else if k == "유" then Some('酉')
    else if k == "술" then Some('戌') else if k == "해" then Some('亥')
    else None
  }

  /** Each stem reading is one syllable that names its glyph back. */
  lemma StemReadingInverse(c: char)
    requires c in KoreanStems
    ensures |KoreanStems[c]| == 1 && StemOfKorean(KoreanStems[c]) == Some(c)
  {
  }

  /** Each branch reading is one syllable that names its glyph back. */
  lemma BranchReadingInverse(c: char)
    requires c in KoreanBranches
    ensures |KoreanBranches[c]| == 1 && BranchOfKorean(KoreanBranches[c]) == Some(c)
  {
  }

  /**
   * The Korean reading loses nothing: two codes with the same reading are
   * the same code (신 is both 辛 and 申, but in different positions).
   */
  lemma KoreanReadingInjective(gz1: string, gz2: string)
    requires GanzhiToKorean(gz1).Success? && GanzhiToKorean(gz2).Success?
    requires GanzhiToKorean(gz1).value == GanzhiToKorean(gz2).value
    ensures gz1 == gz2
  {
    KoreanKeys();
    var k := GanzhiToKorean(gz1).value;
    StemReadingInverse(gz1[0]);
    StemReadingInverse(gz2[0]);
    BranchReadingInverse(gz1[1]);
    BranchReadingInverse(gz2[1]);
    assert k[..1] == KoreanStems[gz1[0]] == KoreanStems[gz2[0]];
    assert k[1..] == KoreanBranches[gz1[1]] == KoreanBranches[gz2[1]];
    assert gz1 == [gz1[0], gz1[1]] && gz2 == [gz2[0], gz2[1]];
  }

  /**
   * Round trip: for 0 <= i < 60 the code of `i` is valid, its stem and
   * branch lead back to `i`, and it has a Korean reading.
   */
  lemma RoundTrip(i: int)
    requires 0 <= i < 60
    ensures GanzhiFromIndex(i).Some?
    ensures StemIndex(GanzhiFromIndex(i).value) == i % 10
    ensures BranchIndex(GanzhiFromIndex(i).value) == i % 12
    ensures ValidPair(i % 10, i % 12) && I60Of(i % 10, i % 12) == i
    ensures GanzhiToKorean(GanzhiFromIndex(i).value).Success?
  {
    I60OfInverse(i);
  }

  /** No two indices 0..59 share a code. */
  lemma CodesDistinct(i: int, j: int)
    requires 0 <= i < 60 && 0 <= j < 60
    requires GanzhiFromIndex(i) == GanzhiFromIndex(j)
    ensures i == j
  {
    RoundTrip(i);
    RoundTrip(j);
  }

  /**
   * Periodicity on the non-negative indices: the code repeats every 60, the
   * stem every 10 and the branch every 12.
   */
  lemma Periodic(i: int)
    requires i >= 0
    ensures GanzhiFromIndex(i + 60) == GanzhiFromIndex(i)
    ensures GanzhiFromIndex(i + 10).value[0] == GanzhiFromIndex(i).value[0]
    ensures GanzhiFromIndex(i + 12).value[1] == GanzhiFromIndex(i).value[1]
  {
    ModMultiple10(i % 10, i / 10 + 6);
    ModMultiple12(i % 12, i / 12 + 5);
    assert JsRem(i + 60, 10) == JsRem(i, 10) && JsRem(i + 60, 12) == JsRem(i, 12);
    ModMultiple10(i % 10, i / 10 + 1);
    ModMultiple12(i % 12, i / 12 + 1);
  }

  /**
   * Below zero the JavaScript remainder is non-positive, so a negative index
   * yields a code only when it is a multiple of 60.
   */
  lemma NegativeIndex(i: int)
    requires i < 0
    ensures GanzhiFromIndex(i).Some? <==> i % 60 == 0
  {
    var n := -i;
    assert JsRem(i, 10) == -(n % 10) && JsRem(i, 12) == -(n % 12);
    assert GanzhiFromIndex(i).Some? <==> n % 10 == 0 && n % 12 == 0;
    assert i % 60 == 0 <==> n % 60 == 0 by {
      if i % 60 == 0 {
        assert i == 60 * (i / 60);
        MultipleOf60(n, -(i / 60));
      }
      if n % 60 == 0 {
        assert n == 60 * (n / 60);
        MultipleOf60(i, -(n / 60));
      }
    }
    if n % 10 == 0 && n % 12 == 0 {
      DivisibleBy60(n);
    }
    if n % 60 == 0 {
      MultipleOf60(n, n / 60);
    }
  }

  /** A multiple of 60 is one of 10 and of 12. */
  lemma MultipleOf60(n: int, k: int)
    requires n == 60 * k
    ensures n % 60 == 0 && n % 10 == 0 && n % 12 == 0
  {
    ModMultiple60(0, k);
    ModMultiple10(0, 6 * k);
    ModMultiple12(0, 5 * k);
  }

  /** A multiple of both 10 and 12 is a multiple of 60. */
  lemma DivisibleBy60(n: int)
    requires n % 10 == 0 && n % 12 == 0
    ensures n % 60 == 0
  {
    var q, r := n / 60, n % 60;
    assert n == 60 * q + r;
    assert r % 10 == 0 by { ModMultiple10(0, 6 * q); assert n == r + 10 * (6 * q); }
    assert r % 12 == 0 by { ModMultiple12(0, 5 * q); assert n == r + 12 * (5 * q); }
  }

  /** So period 60 fails across zero: -1 has no code although 59 has one. */
  lemma NotPeriodicAcrossZero()
    ensures GanzhiFromIndex(-1).None? && GanzhiFromIndex(59).Some?
  {
    NegativeIndex(-1);
  }

  /** A code whose stem and branch differ in parity (甲丑) has no index, though it reads. */
  lemma MixedParityRejected()
    ensures StemIndex("甲丑") == 0 && BranchIndex("甲丑") == 1
    ensures !ValidPair(StemIndex("甲丑"), BranchIndex("甲丑"))
    ensures GanzhiToKorean("甲丑") == Success("갑축")
  {
    var gz := "甲丑";
    assert gz[0] == '甲' && gz[1] == '丑';
    assert KoreanStems['甲'] == "갑" && KoreanBranches['丑'] == "축";
    assert "갑" + "축" == "갑축";
  }
}
