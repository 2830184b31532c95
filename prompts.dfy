/**
 * Prompt assembly for the reading service: the luck-cycle listing, the
 * system prompt (with the cat-voice instruction and the inquiry-specific
 * closing) and the user prompt, each of which an explicit non-blank
 * override replaces outright.
 *
 * The inputs arrive as untyped JSON, so a cycle's fields are JavaScript
 * values of any type and an optional string is `None` when the value is
 * not a string at all.
 */
module Prompts {
  import opened Wrappers
  import opened JsNumbers
  import opened JsStrings

  // -------------------------------------------------------- luck cycles

  /** A field read from a JSON object: absent, a number, a string or anything else. */
  datatype JsField = Missing | Num(x: real) | Str(s: string) | Other

  /** A luck-cycle entry: an object with the four fields, or `null`/`undefined`. */
  datatype CycleValue =
    | Cycle(startAge: JsField, startDate: JsField, ganzhi: JsField, ganzhiKor: JsField)
    | NoCycle

  /** The filter: a numeric `start_age` and string `ganzhi` and `ganzhi_kor`. */
  predicate Listed(c: CycleValue)
  {
    c.Cycle? && c.startAge.Num? && c.ganzhi.Str? && c.ganzhiKor.Str?
  }

  /** The listed entries, in their original order. */
  function ListedCycles(cs: seq<CycleValue>): (r: seq<CycleValue>)
    ensures |r| <= |cs|
    ensures forall c :: c in r <==> c in cs && Listed(c)
  {
    if cs == [] then []
    else if Listed(cs[0]) then [cs[0]] + ListedCycles(cs[1..])
    else ListedCycles(cs[1..])
  }

  /** Filtering a concatenation filters each part, so the order is kept. */
  lemma {:induction false} ListedCyclesAppend(a: seq<CycleValue>, b: seq<CycleValue>)
    ensures ListedCycles(a + b) == ListedCycles(a) + ListedCycles(b)
  {
    if a == [] {
      assert a + b == b;
    } else {
      assert (a + b)[1..] == a[1..] + b;
      ListedCyclesAppend(a[1..], b);
    }
  }

  /** Four ASCII digits in a row start at `j`. */
  predicate FourDigitsAt(s: string, j: int)
  {
    0 <= j && j + 4 <= |s| && AllDigits(s[j..j + 4])
  }

  /**
   * `/\d{4}/` searched from `from`: the first position of four ASCII digits
   * in a row.
   */
  function FindFourDigits(s: string, from: nat): (r: Option<nat>)
    requires from <= |s|
    ensures r.Some? ==> from <= r.value && FourDigitsAt(s, r.value)
    ensures r.Some? ==> forall j :: from <= j < r.value ==> !FourDigitsAt(s, j)
    ensures r.None? ==> forall j :: from <= j ==> !FourDigitsAt(s, j)
    decreases |s| - from
  {
    if from + 4 > |s| then None
    else if AllDigits(s[from..from + 4]) then Some(from)
    else FindFourDigits(s, from + 1)
  }

  /**
   * `start_date.match(/\d{4}/)?.[0]`, only for a string `start_date`: the
   * leftmost run of four digits, if there is one.
   */
  function StartYear(startDate: JsField): (r: Option<string>)
    ensures r.Some? <==> startDate.Str? && exists j :: FourDigitsAt(startDate.s, j)
    ensures r.Some? ==> exists i :: (FourDigitsAt(startDate.s, i) && r.value == startDate.s[i..i + 4] &&
      forall j :: 0 <= j < i ==> !FourDigitsAt(startDate.s, j))
  {
    if startDate.Str? then
      var i := FindFourDigits(startDate.s, 0);
      if i.Some? then Some(startDate.s[i.value..i.value + 4]) else None
    else None
  }

  /** The text shown for the start year. */
  function YearText(startYear: Option<string>): string
  {
    if startYear.Some? && startYear.value != "" then startYear.value + "년" else "시작 연도 미상"
  }

  /** One line of the listing. */
  function CycleLine(c: CycleValue): (r: string)
    requires Listed(c)
  {
    "- " + YearText(StartYear(c.startDate)) + " (약 " + IntToString(Round(c.startAge.x)) + "세), " +
    c.ganzhi.s + " (" + c.ganzhiKor.s + ") 대운"
  }

  /** The lines of the listed entries. */
  function CycleLines(cs: seq<CycleValue>): (r: seq<string>)
    requires forall c :: c in cs ==> Listed(c)
    ensures |r| == |cs| && forall k :: 0 <= k < |cs| ==> r[k] == CycleLine(cs[k])
  {
    seq(|cs|, k requires 0 <= k < |cs| => CycleLine(cs[k]))
  }

  /** `formatLuckCycles`: "" for a non-array, else the lines of the listed entries joined by newlines. */
  function FormatLuckCycles(luckCycles: Option<seq<CycleValue>>): (r: string)
    ensures luckCycles.None? ==> r == ""
  {
    if luckCycles.None? then ""
    else Join(CycleLines(ListedCycles(luckCycles.value)), "\n")
  }

  /** No line is empty. */
  lemma CycleLineNonEmpty(c: CycleValue)
    requires Listed(c)
    ensures CycleLine(c) != ""
  {
  }

  /** A line has no newline when the pillar code and its reading have none. */
  lemma CycleLineSingle(c: CycleValue)
    requires Listed(c) && '\n' !in c.ganzhi.s && '\n' !in c.ganzhiKor.s
    ensures '\n' !in CycleLine(c)
  {
    var y := YearText(StartYear(c.startDate));
    var age := IntToString(Round(c.startAge.x));
    assert '\n' !in y by {
      var sy := StartYear(c.startDate);
      if sy.Some? {
        var i :| FourDigitsAt(c.startDate.s, i) && sy.value == c.startDate.s[i..i + 4];
        assert AllDigits(sy.value);
      }
    }
    assert '\n' !in age by {
      var n := Round(c.startAge.x);
      if n >= 0 {
        assert AllDigits(NatToString(n));
      } else {
        assert AllDigits(NatToString(-n));
      }
    }
    assert CycleLine(c) == "- " + y + " (약 " + age + "세), " + c.ganzhi.s + " (" + c.ganzhiKor.s + ") 대운";
  }

  /** The listing is empty exactly when no entry is listed. */
  lemma FormatLuckCyclesEmpty(cs: seq<CycleValue>)
    ensures FormatLuckCycles(Some(cs)) == "" <==> ListedCycles(cs) == []
  {
    var ls := ListedCycles(cs);
    if ls != [] {
      CycleLineNonEmpty(ls[0]);
      var lines := CycleLines(ls);
      if |lines| > 1 {
        assert Join(lines, "\n") == lines[0] + "\n" + Join(lines[1..], "\n");
      }
    }
  }

  /**
   * Splitting the listing at its newlines gives back one line per listed
   * entry, in order, so there is no trailing newline; this needs the codes
   * and readings to be free of newlines.
   */
  lemma FormatLuckCyclesLines(cs: seq<CycleValue>)
    requires ListedCycles(cs) != []
    requires forall c :: c in cs && Listed(c) ==> '\n' !in c.ganzhi.s && '\n' !in c.ganzhiKor.s
    ensures Split(FormatLuckCycles(Some(cs)), '\n') == CycleLines(ListedCycles(cs))
  {
    var ls := ListedCycles(cs);
    var lines := CycleLines(ls);
    forall k | 0 <= k < |lines|
      ensures '\n' !in lines[k]
    {
      CycleLineSingle(ls[k]);
    }
    SplitJoin(lines, '\n');
  }

  // ------------------------------------------------------ system prompt

  /** `"luck" | "question"`. */
  datatype InquiryType = Luck | Question

  /** `typeof v === "string" && v.trim()`. */
  predicate NonBlank(v: Option<string>)
  {
    v.Some? && Trim(v.value) != ""
  }

  const CatModeInstruction: string :=
    "장난스럽고 애정 어린 말투로 모든 문장을 고양이가 말하는 것 같은 다음 말투들을 사용해 부드럽고 쉬운 말로 살살 설명해주세요. 오행과 그에 어울리는 숲·바위·산·금속·나무·불·땅·시냇물 같은 자연 비유만 사용하고 다른 명리 용어는 쓰지 마세요. 뭐 하고 있어? -> 뭐 하고 있냥~? 😺 안녕하세요. -> 안냥하냥~! 🐱✨ 잘 자. -> 잘 자라옹~ 꿈에서 만냐~ 🌙💤 지금 뭐 해? 지금 뭐 하는 거냥~? 궁금하다옹! 👀 뭘 도와줄까? -> 무엇을 도와줄까냐? ✨😸💕 자신있게 고백하는 거야 -> 자신있게 고백하는 고양😻"

  const SystemPreamble: string :=
    "당신은 전문 사주 명리학자입니다. 다음 사주 원국에 대해 전반적 성격/직업/재물/연애/장점/단점/조언 등의 항목을 전문적으로 분석하여 마크다운 형식으로 답하세요. "

  const SearchInstruction: string :=
    "필요한 경우 활성화되어 있는 웹 검색 도구를 사용해 각 간지에 대해 한국어 웹을 검색하여 내용을 보충하세요"

  const QuestionClosing: string :=
    " 추가 질문에 대해 답변을 마지막에 덧붙이세요. 답변은 이것으로 끝이므로 후속조치 등에 대한 안내는 하지 말 것"

  const LuckClosing: string :=
    " 제공된 대운 정보가 있다면 각 10년 운의 성향과 조언을 간략히 정리하는 섹션을 추가하세요. 답변은 이것으로 끝이므로 후속조치 등에 대한 안내는 하지 말 것."

  /** The prompt before its closing: the preamble, the optional search and cat-voice instructions. */
  function BaseSystemPrompt(catMode: bool, search: bool): string
  {
    SystemPreamble + (if search then SearchInstruction else "") + (if catMode then CatModeInstruction else "")
  }

  /** `buildSystemPrompt`. */
  function BuildSystemPrompt(catMode: bool, inquiryType: InquiryType, search: bool,
                             systemPromptOverride: Option<string>): (r: string)
    ensures NonBlank(systemPromptOverride) ==> r == Trim(systemPromptOverride.value)
  {
    if NonBlank(systemPromptOverride) then Trim(systemPromptOverride.value)
    else
      var base := BaseSystemPrompt(catMode, search);
      if inquiryType == Question then base + QuestionClosing else base + LuckClosing
  }

  /** A non-blank override wins whatever the flags. */
  lemma SystemOverrideWins(catMode: bool, inquiryType: InquiryType, search: bool,
                           catMode': bool, inquiryType': InquiryType, search': bool, o: string)
    requires NonBlank(Some(o))
    ensures BuildSystemPrompt(catMode, inquiryType, search, Some(o)) ==
            BuildSystemPrompt(catMode', inquiryType', search', Some(o))
  {
  }

  /** Without an override the two inquiries get different prompts. */
  lemma SystemPromptInquiryMatters(catMode: bool, search: bool, o: Option<string>)
    requires !NonBlank(o)
    ensures BuildSystemPrompt(catMode, Question, search, o) != BuildSystemPrompt(catMode, Luck, search, o)
  {
    assert |QuestionClosing| != |LuckClosing|;
  }

  /** Without an override the cat-voice instruction is there exactly in cat mode. */
  lemma SystemPromptCatModeMatters(inquiryType: InquiryType, search: bool, o: Option<string>)
    requires !NonBlank(o)
    ensures BuildSystemPrompt(true, inquiryType, search, o) != BuildSystemPrompt(false, inquiryType, search, o)
  {
    assert |CatModeInstruction| > 0;
  }

  // -------------------------------------------------------- user prompt

  /** The four pillar codes of a reading (its luck cycles are not read here). */
  datatype ManseResult = ManseResult(year: string, month: string, day: string, hour: string)

  /** `v || fallback` for an optional string: "" and a missing value both fall back. */
  function OrDefault(v: Option<string>, fallback: string): (r: string)
    ensures v.Some? && v.value != "" ==> r == v.value
    ensures v.None? || v == Some("") ==> r == fallback
  {
    if v.Some? && v.value != "" then v.value else fallback
  }

  /** `resolveBirthInfo`: the trimmed `birthInfo` if non-blank, else a line built from the pillars, else "". */
  function ResolveBirthInfo(birthInfo: Option<string>, manse: Option<ManseResult>, gender: Option<string>): (r: string)
    ensures NonBlank(birthInfo) ==> r == Trim(birthInfo.value)
    ensures r == "" <==> !NonBlank(birthInfo) && manse.None?
  {
    if NonBlank(birthInfo) then Trim(birthInfo.value)
    else if manse.None? then ""
    else
      var m := manse.value;
      m.hour + "시 " + m.day + "일 " + m.month + "월 " + m.year + "년, 성별: " + OrDefault(gender, "미입력")
  }

  /** `buildUserPrompt`. */
  function BuildUserPrompt(inquiryType: InquiryType, question: string, luckCycles: Option<seq<CycleValue>>,
                           manse: Option<ManseResult>, gender: Option<string>, birthInfo: Option<string>,
                           userPromptOverride: Option<string>): (r: string)
    ensures NonBlank(userPromptOverride) ==> r == Trim(userPromptOverride.value)
  {
    if NonBlank(userPromptOverride) then Trim(userPromptOverride.value)
    else
      var resolved := ResolveBirthInfo(birthInfo, manse, gender);
      if resolved == "" then ""
      else
        var formatted := FormatLuckCycles(luckCycles);
        if inquiryType == Question then resolved + "\n추가 질문: " + OrDefault(Some(question), "추가 질문 없음")
        else resolved + "\n대운(10년):\n" + OrDefault(Some(formatted), "대운 정보 없음")
  }

  /**
   * The user prompt is empty exactly when there is no override, no
   * birth-information text and no reading.
   */
  lemma UserPromptEmpty(inquiryType: InquiryType, question: string, luckCycles: Option<seq<CycleValue>>,
                        manse: Option<ManseResult>, gender: Option<string>, birthInfo: Option<string>,
                        o: Option<string>)
    ensures BuildUserPrompt(inquiryType, question, luckCycles, manse, gender, birthInfo, o) == "" <==>
      !NonBlank(o) && !NonBlank(birthInfo) && manse.None?
  {
    if NonBlank(o) {
      BlankIsAllWhitespace(o.value);
    }
  }

  /** Without an override, non-blank birth information makes the reading irrelevant. */
  lemma BirthInfoIgnoresManse(inquiryType: InquiryType, question: string, luckCycles: Option<seq<CycleValue>>,
                              manse: Option<ManseResult>, manse': Option<ManseResult>, gender: Option<string>,
                              birthInfo: Option<string>, o: Option<string>)
    requires !NonBlank(o) && NonBlank(birthInfo)
    ensures BuildUserPrompt(inquiryType, question, luckCycles, manse, gender, birthInfo, o) ==
            BuildUserPrompt(inquiryType, question, luckCycles, manse', gender, birthInfo, o)
  {
    assert ResolveBirthInfo(birthInfo, manse, gender) == ResolveBirthInfo(birthInfo, manse', gender);
  }

  /**
   * Without an override and with something to describe, a question inquiry
   * ends with the question, or "추가 질문 없음" for an empty one.
   */
  lemma QuestionEnding(question: string, luckCycles: Option<seq<CycleValue>>,
                       manse: Option<ManseResult>, gender: Option<string>, birthInfo: Option<string>,
                       o: Option<string>)
    requires !NonBlank(o) && (NonBlank(birthInfo) || manse.Some?)
    ensures var r := BuildUserPrompt(Question, question, luckCycles, manse, gender, birthInfo, o);
      var head := ResolveBirthInfo(birthInfo, manse, gender) + "\n추가 질문: ";
      r == head + (if question == "" then "추가 질문 없음" else question)
  {
  }

  /**
   * Without an override and with something to describe, a luck inquiry ends
   * with the luck-cycle listing, or "대운 정보 없음" when it is empty.
   */
  lemma LuckEnding(question: string, luckCycles: Option<seq<CycleValue>>,
                   manse: Option<ManseResult>, gender: Option<string>, birthInfo: Option<string>,
                   o: Option<string>)
    requires !NonBlank(o) && (NonBlank(birthInfo) || manse.Some?)
    ensures var r := BuildUserPrompt(Luck, question, luckCycles, manse, gender, birthInfo, o);
      var listing := FormatLuckCycles(luckCycles);
      var head := ResolveBirthInfo(birthInfo, manse, gender) + "\n대운(10년):\n";
      r == head + (if listing == "" then "대운 정보 없음" else listing)
  {
  }
}
