/**
 * The visual helpers for a day pillar: the five-phase element of each stem
 * and branch glyph, the colour classes of each element, the zodiac animal
 * of each branch, and the pair of them shown for a day pillar code.
 *
 * The lookup tables are keyed by strings, as the source's records are, so a
 * key that is not a single glyph (the empty string, a two-glyph code)
 * finds nothing.
 */
module GanzhiVisuals {
  import opened Wrappers
  import opened Sexagenary

  /** The five elements in generating order: wood, fire, earth, metal, water. */
  const Elements: seq<string> := ["목", "화", "토", "금", "수"]

  /** Tailwind classes per element. */
  const ElementColors: map<string, string> := map[
    "목" := "bg-emerald-400 text-white",
    "화" := "bg-rose-400 text-white",
    "토" := "bg-amber-200 text-stone-800",
    "금" := "bg-slate-100 text-gray-700",
    "수" := "bg-sky-500 text-white"]

  /** Element per stem and branch glyph. */
  const ElementByChar: map<string, string> := map[
    "甲" := "목", "乙" := "목", "丙" := "화", "丁" := "화", "戊" := "토",
    "己" := "토", "庚" := "금", "辛" := "금", "壬" := "수", "癸" := "수",
    "子" := "수", "丑" := "토", "寅" := "목", "卯" := "목", "辰" := "토", "巳" := "화",
    "午" := "화", "未" := "토", "申" := "금", "酉" := "금", "戌" := "토", "亥" := "수"]

  /** Zodiac animal per branch glyph. */
  const BranchAnimals: map<string, string> := map[
    "子" := "🐭", "丑" := "🐮", "寅" := "🐯", "卯" := "🐰", "辰" := "🐲", "巳" := "🐍",
    "午" := "🐴", "未" := "🐑", "申" := "🐒", "酉" := "🐔", "戌" := "🐶", "亥" := "🐷"]

  /** The animals in branch order, 子 (rat) to 亥 (pig). */
  const Animals: seq<string> := ["🐭", "🐮", "🐯", "🐰", "🐲", "🐍", "🐴", "🐑", "🐒", "🐔", "🐶", "🐷"]

  /** `getElement`: the element of a glyph, `undefined` for any other key. */
  function GetElement(c: string): (r: Option<string>)
    ensures r.Some? <==> c in ElementByChar
    ensures r.Some? ==> r.value in Elements
  {
    if c in ElementByChar then Some(ElementByChar[c]) else None
  }

  /** `getElementColorClasses`: the element's classes, or "" when the glyph has no element. */
  function GetElementColorClasses(c: string): (r: string)
    ensures r != "" <==> c in ElementByChar
    ensures c in ElementByChar ==> r == ElementColors[ElementByChar[c]]
  {
    var element := GetElement(c);
    if element.Some? && element.value != "" then
      if element.value in ElementColors then ElementColors[element.value] else ""
    else ""
  }

  /** `getBranchAnimalEmoji`: the branch's animal, or "" for any other key. */
  function GetBranchAnimalEmoji(b: string): (r: string)
    ensures r != "" <==> b in BranchAnimals
  {
    if b in BranchAnimals then BranchAnimals[b] else ""
  }

  /** `s.charAt(i)`: the one-character string at `i`, "" past the end. */
  function CharAt(s: string, i: nat): (r: string)
    ensures i < |s| ==> r == [s[i]]
    ensures i >= |s| ==> r == ""
  {
    if i < |s| then [s[i]] else ""
  }

  /** What a day pillar is drawn with. */
  datatype DayProfileVisuals = DayProfileVisuals(colorClasses: string, animalEmoji: string)

  /**
   * `getDayProfileVisuals`: colour from the first character, animal from
   * the second. There is a colour exactly when the first character is a
   * stem or branch glyph, and an animal exactly when the second is a branch.
   */
  function GetDayProfileVisuals(day: string): (r: DayProfileVisuals)
    ensures r.colorClasses != "" <==> |day| >= 1 && (day[0] in Stems || day[0] in Branches)
    ensures r.animalEmoji != "" <==> |day| >= 2 && day[1] in Branches
  {
    ColoredGlyphs(CharAt(day, 0));
    BranchAnimalsInOrder(CharAt(day, 1));
    DayProfileVisuals(GetElementColorClasses(CharAt(day, 0)), GetBranchAnimalEmoji(CharAt(day, 1)))
  }

  /** Stems go by twos through the elements in generating order. */
  lemma StemElements(k: int)
    requires 0 <= k < 10
    ensures GetElement([Stems[k]]) == Some(Elements[k / 2])
  {
  }

  /**
   * The element of a branch: 丑, 辰, 未 and 戌 (every third branch from 丑)
   * are earth; the others go by season, water (亥 子), wood (寅 卯),
   * fire (巳 午) and metal (申 酉).
   */
  function BranchElement(k: int): string
    requires 0 <= k < 12
  {
    if k % 3 == 1 then "토" else ["수", "목", "화", "금"][(k + 1) % 12 / 3]
  }

  lemma BranchElements(k: int)
    requires 0 <= k < 12
    ensures GetElement([Branches[k]]) == Some(BranchElement(k))
  {
  }

  /** Exactly the 22 stem and branch glyphs have colour classes. */
  lemma ColoredGlyphs(c: string)
    ensures GetElementColorClasses(c) != "" <==> |c| == 1 && (c[0] in Stems || c[0] in Branches)
  {
    if |c| == 1 && c[0] in Stems {
      var k := StemIndexOf(c[0]);
      assert c == [Stems[k]];
      StemElements(k);
    } else if |c| == 1 && c[0] in Branches {
      var k := BranchIndexOf(c[0]);
      assert c == [Branches[k]];
      BranchElements(k);
    } else if c in ElementByChar {
      ElementKeys(c);
    }
  }

  /** Every key of the element table is a single stem or branch glyph. */
  lemma ElementKeys(c: string)
    requires c in ElementByChar
    ensures |c| == 1 && (c[0] in Stems || c[0] in Branches)
  {
    if c in {"甲", "乙", "丙", "丁", "戊", "己", "庚", "辛", "壬", "癸"} {
      assert c[0] in Stems;
    } else {
      assert c in {"子", "丑", "寅", "卯", "辰", "巳", "午", "未", "申", "酉", "戌", "亥"};
      assert c[0] in Branches;
    }
  }

  /** Each branch has its own animal, in zodiac order, and no other key has one. */
  lemma BranchAnimalsInOrder(b: string)
    ensures GetBranchAnimalEmoji(b) != "" <==> |b| == 1 && b[0] in Branches
    ensures |b| == 1 && b[0] in Branches ==> GetBranchAnimalEmoji(b) == Animals[BranchIndexOf(b[0])]
  {
    if |b| == 1 && b[0] in Branches {
      var k := BranchIndexOf(b[0]);
      assert b == [Branches[k]];
    } else {
      assert BranchAnimals.Keys == {"子", "丑", "寅", "卯", "辰", "巳", "午", "未", "申", "酉", "戌", "亥"};
    }
  }

  /** No two branches share an animal. */
  lemma AnimalsDistinct(i: int, j: int)
    requires 0 <= i < 12 && 0 <= j < 12 && i != j
    ensures GetBranchAnimalEmoji([Branches[i]]) != GetBranchAnimalEmoji([Branches[j]])
  {
    BranchAnimalsInOrder([Branches[i]]);
    BranchAnimalsInOrder([Branches[j]]);
  }

  /**
   * For a valid sexagenary code the visuals are the stem's element colour
   * and the branch's animal, and neither is empty.
   */
  lemma VisualsOfCode(i: int)
    ensures var g := GanzhiFromIndex(i);
      g.Some? ==> (var v := GetDayProfileVisuals(g.value);
        v.colorClasses == ElementColors[Elements[StemIndex(g.value) / 2]] &&
        v.animalEmoji == Animals[BranchIndex(g.value)] &&
        v.colorClasses != "" && v.animalEmoji != "")
  {
    var g := GanzhiFromIndex(i);
    if g.Some? {
      var s, b := StemIndex(g.value), BranchIndex(g.value);
      assert CharAt(g.value, 0) == [Stems[s]];
      assert CharAt(g.value, 1) == [Branches[b]];
      StemElements(s);
      BranchAnimalsInOrder([Branches[b]]);
    }
  }

  /** Only the first two characters matter; an empty code draws nothing. */
  lemma VisualsUseTwoCharacters(day: string)
    ensures |day| >= 2 ==> GetDayProfileVisuals(day) == GetDayProfileVisuals(day[..2])
    ensures GetDayProfileVisuals("") == DayProfileVisuals("", "")
  {
    if |day| >= 2 {
      assert CharAt(day, 0) == CharAt(day[..2], 0) && CharAt(day, 1) == CharAt(day[..2], 1);
    }
    assert "" !in ElementByChar && "" !in BranchAnimals;
  }
}
