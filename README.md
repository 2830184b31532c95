# Four pillars (manse) calculator — Dafny model

This project models the calendar core of a Korean saju (four pillars of destiny) web application, together with the small pure helpers around it.

- **Sexagenary codec.** The ten heavenly stems, the twelve earthly branches and the sixty-pair cycle, with Korean readings. `ganzhiFromIndex`, `i60FromGanzhi` and `ganzhiToKorean` are modelled.
- **Four pillars of a birth instant.**
  - year: Lichun decides the year, counted from 1984 = 甲子;
  - month: the 30-degree solar-longitude sector, with the stem-start table keyed by the year stem;
  - day: the Julian day number plus 50, reduced mod 60;
  - hour: two-hour periods re-based at 23:00, with the stem-start table keyed by the day stem.
  - These combine into `manseCalc`.
- **Lunisolar conversion.**
  - the 201-entry bit-packed table for 1900–2100;
  - its per-month, leap-month and per-year day counts;
  - the walk from a Gregorian date to a lunar date.
- **Luck cycles (대운).**
  - direction from gender and the polarity of the year stem;
  - choice of the next and previous principal solar term among candidate crossings;
  - start age at three days per year;
  - the ten-year schedule of cycle pillars.
- **The `/api/manse` request helpers:** date and time parsing, ISO formatting, age snapping, timestamp trimming and the gender flag.
- **The day-pillar visuals:** the element colour and the zodiac animal.
- **Prompt assembly** for the language model, with its override precedence.
- **The two markdown link-text rewriters.** Both are global regular-expression replacements. They are modelled with a matcher, the template substitution of `String.prototype.replace`, and a reference "relabel" function. `transformLinkText` is proved equal to it. `replaceMarkdownLinkText` is proved equal to it for an emoji without `$`: the emoji is itself part of the replacement template, so a `$` pattern in it is expanded.

JavaScript semantics are written out where they matter:
- `%` on integers is the truncating remainder (`JsNumbers.JsRem`);
- `Math.floor` and `Math.round` are modelled on exact reals;
- `Number(s)` is modelled for decimal strings;
- a lookup that reads `undefined` from a glyph table gives `None`.

Numbers are exact `int`/`real`: there is no IEEE rounding.

Files, one module each:
- `wrappers.dfy`, `jsnumbers.dfy`, `jsstrings.dfy`: `Option`/`Result` and the JavaScript operations used;
- `sexagenary.dfy`: the codec;
- `julian_day.dfy`: the day number;
- `pillars.dfy`: the four pillars and `manseCalc`;
- `lunar.dfy`: the lunar table and conversion;
- `luck_cycles.dfy`: luck cycles;
- `manse_route.dfy`: the request helpers;
- `ganzhi_visuals.dfy`: the visuals;
- `prompts.dfy`: prompt assembly;
- `markdown_links.dfy`: the markdown rewriters.

## Model

| member | source | states |
|---|---|---|
| Sexagenary.StemIndexOf | lib/manse.ts:258 | `TEN_STEMS.indexOf`: the position of the glyph, or -1 exactly when it is not a stem |
| Sexagenary.BranchIndexOf | lib/manse.ts:259 | `TWELVE_BRANCHES.indexOf`: the position of the glyph, or -1 exactly when it is not a branch |
| Sexagenary.Pair | lib/manse.ts:33 | a stem and a branch index give a two-glyph code exactly when both are in range, and the code reads back to those indices |
| Sexagenary.I60Of | lib/manse.ts:260-262 | the cycle index of a same-parity stem/branch pair is the unique i in 0..59 with i % 10 = stem and i % 12 = branch |
| Sexagenary.I60OfInverse | lib/manse.ts:257-264 | every i in 0..59 gives a valid pair, and the pair gives back i |
| Sexagenary.I60FromGanzhi | lib/manse.ts:257-264 | the search succeeds exactly on a code whose glyphs form a valid pair, returns that pair's index, and otherwise throws "Invalid ganzhi pair" |
| Sexagenary.KoreanKeys | lib/manse.ts:4-30 | the Korean reading tables have exactly the stems and the branches as keys |
| Sexagenary.GanzhiToKorean | lib/manse.ts:36-46 | succeeds exactly on a two-character code of a stem and a branch; a wrong length throws "Invalid ganzhi", an unknown glyph throws "Invalid ganzhi char" |
| Sexagenary.StemReadingInverse | lib/manse.ts:4-15 | each stem reading is one syllable, and it identifies the stem |
| Sexagenary.BranchReadingInverse | lib/manse.ts:17-30 | each branch reading is one syllable, and it identifies the branch |
| Sexagenary.KoreanReadingInjective | lib/manse.ts:36-46 | two codes with the same Korean reading are the same code |
| Sexagenary.GanzhiFromIndex | lib/manse.ts:32-34 | every index from 0 up has a code, and any code carries the stem i mod 10 and the branch i mod 12 |
| Sexagenary.GanzhiTextAsWritten | lib/manse.ts:32-34 | the concatenated text is the code when there is one and otherwise never two characters long (`undefined` glyphs, `NaN` for two); it starts with a stem exactly when the stem remainder is not negative |
| Sexagenary.RoundTrip | lib/manse.ts:32-46 | for 0 ≤ i < 60 the code of i has stem i % 10 and branch i % 12, its index is i again, and it has a Korean reading |
| Sexagenary.CodesDistinct | lib/manse.ts:32-34 | the sixty codes are pairwise distinct |
| Sexagenary.Periodic | lib/manse.ts:32-34 | for i ≥ 0 the code has period 60, the stem period 10 and the branch period 12 |
| Sexagenary.NegativeIndex | lib/manse.ts:32-34 | a negative index gives a code only when it is a multiple of 60, because the truncating remainder is then negative |
| Sexagenary.NotPeriodicAcrossZero | lib/manse.ts:32-34 | index -1 reads outside the glyph arrays while 59 gives a code |
| Sexagenary.MixedParityRejected | lib/manse.ts:257-264 | 甲丑 reads as stem 0 and branch 1, which is no pair of the cycle, yet it has the Korean reading 갑축 |
| JulianDay.YearTermClosedForm | lib/manse.ts:55 | `floor(365.25 · n)` equals 365n + n div 4 |
| JulianDay.MonthTermClosedForm | lib/manse.ts:55 | `floor(30.6001 · k)` equals 153k div 5 for the month terms used |
| JulianDay.DayNumber | lib/manse.ts:48-56 | Meeus' day number equals the whole-day count from March of year −4800: 365 days a year, the Gregorian leap days and `(153 k + 2) div 5` days for the months since March |
| JulianDay.GregorianToJD | lib/manse.ts:48-56 | for a time of day within the day, the Julian date rounds down to the integer day number of the Gregorian date |
| JulianDay.NextDateIsNextDay | lib/manse.ts:48-56 | the day number of the next calendar date is one more |
| JulianDay.MonthEnd | lib/manse.ts:48-56 | the first of a month other than January and March follows the last day of the previous month |
| JulianDay.DecemberEnd | lib/manse.ts:48-56 | January 1 follows December 31 of the previous year |
| JulianDay.FebruaryEnd | lib/manse.ts:48-56 | March 1 follows the last day of February, in leap and common years |
| JulianDay.J2000 | lib/manse.ts:48-56 | 2000-01-01 12:00 is Julian date 2451545 |
| Pillars.YearPillar | lib/manse.ts:85-89 | at or after the Lichun crossing (inclusive) the pillar is the civil year's, before it the previous year's; stems and branches are counted from 1984 for every year |
| Pillars.YearPillarAsWritten | lib/manse.ts:85-89 | as written, every effective year from 1984 on has a code, and whenever there is a code it is the corrected pillar |
| Pillars.YearPillarAgreesFrom1984 | lib/manse.ts:85-89 | for effective years from 1984 on, the code as written gives the same pillar |
| Pillars.YearPillarAsWrittenBefore1984 | lib/manse.ts:88 | before 1984 the code as written yields a code only when 1984 − year is a multiple of 60 |
| Pillars.YearPillar1983 | lib/manse.ts:88 | 1983 has no pillar as written, while its pillar is 癸亥 |
| Pillars.TermIndexFromLongitude | lib/manse.ts:293-296 | for a longitude in [0, 360) the sector is in 0..11, and the longitude lies in the 30-degree sector counted from 315 degrees |
| Pillars.MonthStemStart | lib/manse.ts:104-105 | the month stem start for year stem k is (2 (k mod 5) + 2) mod 10, and -1 for a code with no stem |
| Pillars.StemStartRule | lib/manse.ts:91-97 | the stem-start table follows the rule 2 (k mod 5) + 2 for every year stem k |
| Pillars.MonthCode | lib/manse.ts:102-107 | for sector t the branch is (2 + t) mod 12, the stem is the start plus t mod 10, and the pair is a valid code |
| Pillars.MonthPillarFromLongitude | lib/manse.ts:99-108 | for a longitude in [0, 360) and a year code with a stem, the result is a valid code whose branch is the sector's |
| Pillars.MonthPillarSameSector | lib/manse.ts:99-108 | two longitudes give the same month pillar exactly when they lie in the same sector |
| Pillars.MonthCodeInjective | lib/manse.ts:99-108 | distinct sectors of one year give distinct month pillars |
| Pillars.MonthCodeIs | lib/manse.ts:99-108 | the month code is the glyph pair of the computed stem and branch |
| Pillars.MonthPillarAtLichun | lib/manse.ts:99-108 | in a 甲 year the month starting at Lichun (315 degrees) is 丙寅 |
| Pillars.MonthPillarBeforeLichun | lib/manse.ts:99-108 | in a 甲 year the sector just before 315 degrees gives 丁丑 |
| Pillars.DayIndex | lib/manse.ts:113 | the day's cycle index lies in 0..59 |
| Pillars.DayPillar | lib/manse.ts:110-115 | every date has a day pillar, with stem and branch read from the day index |
| Pillars.DayPillarAsWritten | lib/manse.ts:110-115 | as written, every date from the start of the Julian period has a code in any zone within a day of Greenwich |
| Pillars.DayPillarEastAgrees | lib/manse.ts:111-115 | for a zone east of Greenwich (0 < tz ≤ 24) the code as written gives this pillar |
| Pillars.DayPillarWestIsNextDay | lib/manse.ts:111-115 | for a zone at or west of Greenwich the code as written gives the next day's pillar |
| Pillars.DayPillarJ2000 | lib/manse.ts:110-115 | 2000-01-01 is a 戊午 day |
| Pillars.DayPillarJ2000AsWritten | lib/manse.ts:111-115 | as written, 2000-01-01 is 戊午 at tz 9 but 己未 at tz 0 |
| Pillars.DayPillar1900 | lib/manse.ts:110-115 | 1900-01-01 is a 甲戌 day |
| Pillars.DayPillarNextDay | lib/manse.ts:110-115 | the day index of the next calendar date is one more, mod 60, across months and years |
| Pillars.ZiStartRule | lib/manse.ts:129-135 | the 子-hour stem table follows the rule 2 (k mod 5) for every day stem k |
| Pillars.HourStemStart | lib/manse.ts:136 | the 子-hour stem of day stem k is 2 (k mod 5), and -1 for a code with no stem |
| Pillars.HourBin | lib/manse.ts:122-127 | the period is in 0..11; 子 covers 23:01–01:00, and period b ≥ 1 covers the minutes after 2b − 1 o'clock up to 2b + 1 o'clock inclusive |
| Pillars.HourBinZiStart | lib/manse.ts:124-127 | 23:00 is still 亥 and 23:01 is 子 |
| Pillars.HourBinZiEnd | lib/manse.ts:124-127 | 01:00 is still 子 and 01:01 is 丑 |
| Pillars.PeriodOfOffset | lib/manse.ts:123-127 | the code's remainders, the 1e-7 shift and the floor of offset/120 compute that period for every whole-minute time |
| Pillars.HourCode | lib/manse.ts:128-138 | for a day code with a stem, the hour pillar is a valid code whose branch is the period and whose stem is the start plus the period mod 10 |
| Pillars.HourPillar | lib/manse.ts:121-139 | the hour pillar is the hour code of the day code and the clock time's period |
| Pillars.MinuteOfDay | lib/manse.ts:123 | the double remainder brings any minute count into 0..1439 |
| Pillars.ManseCalc | lib/manse.ts:141-149 | all four pillars are codes, month and hour are valid pairs, and each pillar is the rule above applied to the birth data |
| Pillars.ManseCalcAsWritten | lib/manse.ts:141-149 | as written, the month pillar is read from the year's text and the hour pillar from the day's text, codes or not; from 1984 on, in the Julian period and east of Greenwich, all four pillars are the corrected ones |
| Pillars.ManseCalcAsWritten1983 | lib/manse.ts:32-107 | as written, 1983 gives the year text `NaN`, which has no Korean reading; the 寅 month has no stem and the 卯 month is the mixed pair 甲卯, where the year 癸亥 gives 乙卯 |
| Pillars.YearTextAsWritten1974 | lib/manse.ts:32-34 | as written, 1974 gives the year text `甲undefined`, which still starts with the year's stem |
| Lunar.EntryLeapMonth | lib/manse.ts:182-184 | the leap month is the low nibble, and 0 means no leap month |
| Lunar.TableWellFormed | lib/manse.ts:153-180 | every table entry has a leap month of at most 12 |
| Lunar.EntryLeapDays | lib/manse.ts:186-188 | the leap-month length is 0 exactly when there is no leap month, and 29 or 30 otherwise |
| Lunar.MaskShift | lib/manse.ts:192 | the month mask is 0x10000 shifted right by the month |
| Lunar.LeapDays | lib/manse.ts:186-188 | the year's leap-month length is the table entry's (0, 29 or 30) |
| Lunar.MonthDays | lib/manse.ts:190-193 | month m is long exactly when bit 16 − m of the year's entry is set, as the entry's month mask says |
| Lunar.YearDays | lib/manse.ts:195-202 | a tabulated year has between 348 and 390 days |
| Lunar.EntryMonthDays | lib/manse.ts:190-193 | every regular month has 29 or 30 days |
| Lunar.LeapMonth | lib/manse.ts:182-184 | a year's leap month is in 0..12 |
| Lunar.EntryDaysByMonths | lib/manse.ts:195-202 | the year length is the sum of the regular months plus the leap month |
| Lunar.YearDaysByMonths | lib/manse.ts:195-202 | the same for each year of the table |
| Lunar.LunarYearDays | lib/manse.ts:195-202 | the loop adds one day per 30-day month to 348 and then the leap length, which gives the year length |
| Lunar.TableTotal | lib/manse.ts:153-180 | the 201 years of the table hold 73412 days |
| Lunar.SupportedRange | lib/manse.ts:205-208 | 1900-01-31 is day 2415051, and the supported range spans 73383 days up to 2100-12-31 |
| Lunar.TableEndsAfter | lib/manse.ts:213-218 | the table's years outlast the supported range, so the year walk stops inside the table |
| Lunar.DateDayNumber | lib/manse.ts:205-206 | `new Date(y, m − 1, d)` counts from the Gregorian day number, with years 0..99 read as 1900..1999 |
| Lunar.SlotOf | lib/manse.ts:220-236 | each (month, leap) pair of a year has its own slot in month order, with the leap month after its regular month |
| Lunar.SlotStep | lib/manse.ts:229-235 | after a regular month comes its leap month if it has one, otherwise the next month, and each slot starts where the previous one ends |
| Lunar.SlotsCoverYear | lib/manse.ts:195-202 | the slots of a year end exactly at the year's length |
| Lunar.DayWithinYear | lib/manse.ts:211-236 | a valid lunar date lies within its year's days |
| Lunar.OffsetOfInjective | lib/manse.ts:204-238 | two valid lunar dates have the same day offset exactly when they are the same date |
| Lunar.LocateYear | lib/manse.ts:212-218 | the year walk finds the year in 1900..2100 whose days contain the offset, and the offset within it |
| Lunar.WalkMonths | lib/manse.ts:220-236 | the corrected month walk returns a valid lunar date of that year at that offset |
| Lunar.GregorianToLunar | lib/manse.ts:204-238 | returns null exactly outside 1900-01-31..2100-12-31; otherwise a valid lunar date whose offset is the day count from 1900-01-31 |
| Lunar.MonthWalkAsWritten | lib/manse.ts:223-236 | the walk as written stays in the year, and every result it returns has month 1..12 and day 1..30 |
| Lunar.WalkMonthsAsWritten | lib/manse.ts:220-237 | the loop as written computes the recursive as-written walk |
| Lunar.AsWrittenNeverPassesLeapMonth | lib/manse.ts:230-235 | in a year with leap month L, the walk as written never reports a month after L |
| Lunar.AsWrittenMisdates1900 | lib/manse.ts:230-235 | 1900-10-23 is lunar 9/1 of 1900, yet the walk as written reports 8/1, the same as for 1900-08-25 |
| Lunar.Layout1900 | lib/manse.ts:154 | the 1900 entry: leap month 8 of 29 days, and its twelve month lengths |
| Lunar.LunarNewYear2024 | lib/manse.ts:204-238 | 2024-02-10 is lunar 2024-01-01, not a leap month |
| LuckCycles.TermsEvery30Degrees | lib/manse.ts:242-255 | term i sits at 315 + 30i degrees mod 360, and its guess month follows the previous term's |
| LuckCycles.CurrentTermPrecedes | lib/manse.ts:344-347 | the current term's longitude lies at most 30 degrees behind the birth longitude |
| LuckCycles.NextTermFollows | lib/manse.ts:346 | the next term lies 30 degrees after the current one |
| LuckCycles.YangStems | lib/manse.ts:319-321 | a yang stem is one with an even stem index |
| LuckCycles.LuckCyclesDirection | lib/manse.ts:323-327 | the direction is +1 or -1, and +1 exactly when the female flag differs from the year stem being yang |
| LuckCycles.After | lib/manse.ts:309 | the filter keeps exactly the candidates after the bound |
| LuckCycles.Before | lib/manse.ts:313 | the filter keeps exactly the candidates before the bound |
| LuckCycles.ReduceMin | lib/manse.ts:310 | the reduction gives the least candidate |
| LuckCycles.ReduceMax | lib/manse.ts:314 | the reduction gives the greatest candidate |
| LuckCycles.NextCrossing | lib/manse.ts:308-310 | the next crossing is the earliest candidate later than birth + 1e-9, or the earliest candidate if none is later |
| LuckCycles.PrevCrossing | lib/manse.ts:312-314 | the previous crossing is the latest candidate earlier than birth − 1e-9, or the latest candidate if none is earlier |
| LuckCycles.NextPrevTermTimes | lib/manse.ts:303-317 | the intended pair: the next term's chosen crossing and the previous term's, each labelled with its term's name and longitude |
| LuckCycles.Elements | lib/manse.ts:348 | array destructuring throws exactly on undefined and on a number |
| LuckCycles.NextPrevTermTimesAsWritten | lib/manse.ts:316 | the comma operator returns only the previous-term tuple |
| LuckCycles.AsWrittenNextInfoIsNumber | lib/manse.ts:348-357 | as written, `nextInfo` is a number, and destructuring it throws |
| LuckCycles.CycleIndex | lib/manse.ts:385 | the intended cycle index is always in 0..59 |
| LuckCycles.CycleIndexStep | lib/manse.ts:383-387 | each cycle's index moves one step in the direction, mod 60 |
| LuckCycles.CycleIndexAsWritten | lib/manse.ts:385 | the index as written lies strictly between −60 and 60, and whenever it is not negative it is the intended index |
| LuckCycles.CycleIndexAsWrittenAgrees | lib/manse.ts:385 | while the offset keeps the sum non-negative, the index as written is the intended one |
| LuckCycles.CycleIndexAsWrittenNegative | lib/manse.ts:385 | backward from 甲子, cycle 601 has index -1 as written and no pillar, where 癸亥 is meant |
| LuckCycles.EntryCount | lib/manse.ts:383 | `Array.from` makes no entries for a non-positive count and `cycles` entries otherwise |
| LuckCycles.ScheduleAges | lib/manse.ts:386-387 | every cycle spans ten years, the first starts at the start age, and each starts where the previous one ends |
| LuckCycles.SchedulePillars | lib/manse.ts:385-396 | every cycle has a valid pillar whose index is the month index stepped n times in the direction |
| LuckCycles.Schedule | lib/manse.ts:383-398 | the generated entries form the schedule for the start age, month index, direction and count |
| LuckCycles.LuckCyclesInfo | lib/manse.ts:333-423 | succeeds exactly for direction ±1 and a valid month code; reports the current term, the next (forward) or previous (backward) term, days ≥ 0 to it, start age days/3 and the schedule |
| LuckCycles.LuckCyclesInfoAsWritten | lib/manse.ts:341-357 | as written, every call throws: an invalid direction at the guard, any valid one at the destructuring of `nextInfo` |
| ManseRoute.ParseDate | app/api/manse/route.ts:12-19 | a date is returned exactly when the parameter is present and non-empty and splits at `-` into three parts that each read as a number, with month in 1..12 and day in 1..31; the result holds those numbers |
| ManseRoute.ParseDateOfDigits | app/api/manse/route.ts:12-19 | digit parts with month 1..12 and day 1..31 are accepted as their values, with no check of the month's length |
| ManseRoute.ParseTime | app/api/manse/route.ts:21-28 | a time is returned exactly when the parameter, or "12:00" when it is missing, splits at `:` into two parts that each read as a number, with hour in 0..23 and minute in 0..59; the result holds those numbers |
| ManseRoute.ParseTimeDefault | app/api/manse/route.ts:22 | a missing time is 12:00 |
| ManseRoute.ParseTimeEmpty | app/api/manse/route.ts:22-24 | an empty time is rejected, not defaulted |
| ManseRoute.ParseTimeOfDigits | app/api/manse/route.ts:21-28 | digit parts in range are accepted as their values |
| ManseRoute.Pad | app/api/manse/route.ts:31 | `padStart` never shortens the number's digits |
| ManseRoute.FormatIso | app/api/manse/route.ts:30-33 | the stamp has at least 19 characters |
| ManseRoute.PadExact | app/api/manse/route.ts:31 | a number with at most `len` digits pads to exactly `len` digits that read back as the number |
| ManseRoute.FormatIsoLayout | app/api/manse/route.ts:30-33 | for fields within their widths, the stamp is `YYYY-MM-DDThh:mm:00` of the padded fields |
| ManseRoute.ParseDateOfFormatted | app/api/manse/route.ts:12-33 | the date part of a formatted stamp parses back to the same year, month and day |
| ManseRoute.ParseTimeOfFormatted | app/api/manse/route.ts:21-33 | the time part of a formatted stamp parses back to the same hour and minute |
| ManseRoute.NormalizeAgeYears | app/api/manse/route.ts:35-39 | a non-number passes through; a number snaps to its `Math.round` exactly when it is within 1e-9 of it, and otherwise stays as it is |
| ManseRoute.NormalizeAgeYearsIdempotent | app/api/manse/route.ts:35-39 | normalising twice is normalising once |
| ManseRoute.IsoToYmdhm | app/api/manse/route.ts:41-44 | null exactly for a null or empty stamp; otherwise at most 16 characters |
| ManseRoute.StampToYmdhm | app/api/manse/route.ts:41-44 | a `YYYY-MM-DDThh:mm:00` stamp becomes `YYYY-MM-DD hh:mm` |
| ManseRoute.IsoToYmdhmOfFormatted | app/api/manse/route.ts:30-44 | trimming a formatted stamp gives the padded `YYYY-MM-DD hh:mm` |
| ManseRoute.StartsWithFCases | app/api/manse/route.ts:55-56 | the lower-cased value starts with "f" exactly when it starts with f or F |
| ManseRoute.IsFemaleAsWritten | app/api/manse/route.ts:55-56 | female exactly when `sex`, or else `gender`, starts with f; male when neither is present |
| ManseRoute.PageSexIgnored | app/page.tsx:331-335 | every request the page builds is read as male, whatever gender was chosen |
| ManseRoute.IsFemale | app/api/manse/route.ts:55-56 | `sex`/`gender` keep their meaning; without them the page's `female=true` key decides |
| ManseRoute.PageSexHonoured | app/page.tsx:331-335 | with the corrected flag, the page's chosen gender reaches the calculation |
| GanzhiVisuals.GetElement | lib/ganzhi.ts:49-51 | an element exactly for the table's keys, and it is one of the five elements |
| GanzhiVisuals.StemElements | lib/ganzhi.ts:9-19 | stem k has element k div 2 in the order 목 화 토 금 수 |
| GanzhiVisuals.BranchElements | lib/ganzhi.ts:20-31 | 丑 辰 未 戌 are earth, and the other branches follow the seasons (수 for 亥 子, 목 for 寅 卯, 화 for 巳 午, 금 for 申 酉) |
| GanzhiVisuals.ElementKeys | lib/ganzhi.ts:9-32 | every key of the element table is a single stem or branch glyph |
| GanzhiVisuals.GetElementColorClasses | lib/ganzhi.ts:53-56 | "" exactly for characters without an element, and otherwise that element's classes |
| GanzhiVisuals.ColoredGlyphs | lib/ganzhi.ts:1-56 | exactly the 22 stem and branch glyphs have non-empty colour classes |
| GanzhiVisuals.GetBranchAnimalEmoji | lib/ganzhi.ts:58-60 | "" exactly for keys without an animal |
| GanzhiVisuals.BranchAnimalsInOrder | lib/ganzhi.ts:34-47 | exactly the twelve branches have animals, in zodiac order from rat to pig |
| GanzhiVisuals.AnimalsDistinct | lib/ganzhi.ts:34-47 | no two branches share an animal |
| GanzhiVisuals.CharAt | lib/ganzhi.ts:63-64 | `charAt` gives the one-character string at the index, or "" past the end |
| GanzhiVisuals.GetDayProfileVisuals | lib/ganzhi.ts:62-69 | there is a colour exactly when the first character is a stem or branch glyph, and an animal exactly when the second is a branch |
| GanzhiVisuals.VisualsOfCode | lib/ganzhi.ts:62-69 | for every sexagenary code the colour is its stem's element colour and the animal its branch's, and neither is empty |
| GanzhiVisuals.VisualsUseTwoCharacters | lib/ganzhi.ts:62-69 | only the first two characters matter, and an empty code draws nothing |
| Prompts.ListedCycles | lib/prompts.ts:30-36 | the filter keeps exactly the entries with a numeric start age and string codes |
| Prompts.ListedCyclesAppend | lib/prompts.ts:30-36 | the filter keeps the entries' order |
| Prompts.FindFourDigits | lib/prompts.ts:40 | finds the first position of four consecutive ASCII digits |
| Prompts.StartYear | lib/prompts.ts:38-41 | the year is the first four-digit run of a string start date, and is absent otherwise |
| Prompts.CycleLines | lib/prompts.ts:37-45 | one line per listed entry, in order |
| Prompts.FormatLuckCycles | lib/prompts.ts:27-28 | "" for a value that is not an array |
| Prompts.CycleLineSingle | lib/prompts.ts:44 | a line holds no newline when the codes hold none |
| Prompts.FormatLuckCyclesEmpty | lib/prompts.ts:27-47 | the listing is empty exactly when no entry passes the filter |
| Prompts.FormatLuckCyclesLines | lib/prompts.ts:30-46 | splitting the listing at newlines gives back the lines of the listed entries, in order, with no trailing newline |
| Prompts.BuildSystemPrompt | lib/prompts.ts:55-57 | a non-blank override is returned trimmed |
| Prompts.SystemOverrideWins | lib/prompts.ts:49-66 | with a non-blank override, the cat mode, inquiry type and search flags make no difference |
| Prompts.SystemPromptInquiryMatters | lib/prompts.ts:63-65 | without an override, question and luck inquiries get different prompts |
| Prompts.SystemPromptCatModeMatters | lib/prompts.ts:59-61 | without an override, cat mode changes the prompt |
| Prompts.OrDefault | lib/prompts.ts:82 | the JavaScript or-default: the value unless it is missing or empty, else the fallback |
| Prompts.ResolveBirthInfo | lib/prompts.ts:68-83 | a non-blank birth info is returned trimmed, and the result is empty exactly when there is neither birth info nor manse |
| Prompts.BuildUserPrompt | lib/prompts.ts:102-104 | a non-blank override is returned trimmed |
| Prompts.UserPromptEmpty | lib/prompts.ts:85-114 | the user prompt is empty exactly when there is no override, no birth info and no manse |
| Prompts.BirthInfoIgnoresManse | lib/prompts.ts:77-79 | a non-blank birth info makes the manse irrelevant |
| Prompts.QuestionEnding | lib/prompts.ts:111-112 | a question inquiry ends with the question, or "추가 질문 없음" when it is empty |
| Prompts.LuckEnding | lib/prompts.ts:111-113 | a luck inquiry ends with the cycle listing, or "대운 정보 없음" when it is empty |
| MarkdownLinks.LinkTailSound | lib/markdown.ts:2 | a found url is non-empty, holds no `)` and is enclosed as `](url)` at the start |
| MarkdownLinks.MatchAt | lib/markdown.ts:2 | a match never runs past the input, and none starts anywhere but at `[` |
| MarkdownLinks.MatchAtIsFirstLink | lib/markdown.ts:2 | the regular-expression scan agrees with the declarative reading of the pattern |
| MarkdownLinks.MatchAtSound | lib/markdown.ts:2 | every match is a link the pattern describes at the start of the input |
| MarkdownLinks.MatchAtComplete | lib/markdown.ts:2 | every link the pattern describes at the start is the one found |
| MarkdownLinks.MatchHasBrackets | lib/markdown.ts:2 | a match needs a `]` and a `)` in the input |
| MarkdownLinks.ReplaceAllRelabels | lib/markdown.ts:2 | global replacement with the template `[caption]($n)` equals relabelling every link with the caption |
| MarkdownLinks.ReplaceMarkdownLinkText | lib/markdown.ts:1-3 | for an emoji without `$`, the replacement relabels every link with the emoji |
| MarkdownLinks.TransformLinkText | lib/utils/markdown.ts:1-4 | the replacement relabels every link with the icon |
| MarkdownLinks.DollarInEmoji | lib/markdown.ts:2 | the emoji is a replacement template: with emoji `$1` a link is left as it was |
| MarkdownLinks.RelabelPrefix | lib/markdown.ts:2 | text without `[` before a link is copied unchanged |
| MarkdownLinks.RelabelLink | lib/markdown.ts:2 | a link becomes `[caption](url)` with its url kept, and the scan goes on after it |
| MarkdownLinks.RelabelNoLink | lib/markdown.ts:2 | input in which no link starts is returned as it is |
| MarkdownLinks.RelabelNoBracket | lib/markdown.ts:2 | input without `]` or without `)` is returned as it is |
| MarkdownLinks.RelabelIdempotent | lib/markdown.ts:2 | for a caption the text group accepts, relabelling twice is relabelling once |
| MarkdownLinks.ReplaceMarkdownLinkTextLink | lib/markdown.ts:1-3 | `[text](url)` after text without `[` becomes `[emoji](url)`, with the text before it unchanged |
| MarkdownLinks.ReplaceMarkdownLinkTextEmptyText | lib/markdown.ts:2 | `[](url)` is left alone, because the text group needs one character |
| MarkdownLinks.TransformLinkTextEmptyText | lib/utils/markdown.ts:3 | `[](url)` is rewritten too, because here the text group may be empty |
| MarkdownLinks.NoLinkUnchanged | lib/markdown.ts:1-3 | input without `[` is unchanged by both functions |
| MarkdownLinks.ReplaceMarkdownLinkTextIdempotent | lib/markdown.ts:1-3 | for a non-empty emoji without `]` or `$`, replacing twice is replacing once |
| MarkdownLinks.TransformLinkTextIdempotent | lib/utils/markdown.ts:1-3 | transforming twice is transforming once, for either icon |
| MarkdownLinks.TransformLinkTextLink | lib/utils/markdown.test.ts:6-16 | `[text](url)` after text without `[` becomes `[📎](url)` by default and `[🐾](url)` with `nyangInjection`, with the url and the text around it unchanged |

## Left out

- The solar longitude (`sunEclipticLongitudeDeg`, lib/manse.ts:58-70) and the 80-step bisection `findTermTimeNear` (lib/manse.ts:72-83) use `Math.sin` and floating point, so they are not modelled.
  - The longitude at birth and the Julian date of Lichun are inputs of `Pillars.ManseCalc`.
  - The crossing search is a function parameter `crossing` of the luck-cycle members.
  - So `termTimeCandidatesNear` (lib/manse.ts:298-301) is modelled only as the three crossings of years y − 1, y and y + 1.
- Pillars.HourPillar: models the path with `useLmt` false and whole minutes only. The longitude correction `lmtShiftMinutes` (lib/manse.ts:117-119) produces fractional minutes and is not modelled.
- Pillars.ManseCalc: uses the corrected `Pillars.YearPillar` and `Pillars.DayPillar`, not the code as written (see Findings). Before 1984 the year as written is often not a code, and the month pillar read from its text is then missing or a mixed pair. `Pillars.ManseCalcAsWritten` models that path.
- The code's floating-point rounding is not modelled: reals are exact.
  - `gregorianToJD` (lib/manse.ts:48-56) is exact, with its `floor(365.25 · n)` and `floor(30.6001 · k)` terms read as the integer forms of `JulianDay.YearTermClosedForm` and `JulianDay.MonthTermClosedForm`.
  - The `1e-9` and `1e-7` comparisons are taken on exact values.
- `jdToGregorian`, `jdIso` and `isoFromDateParts` (lib/manse.ts:266-291, 329-331, 350-354) are not modelled. They convert Julian dates and `Date` values to calendar text through floating point and the JavaScript `Date` API.
- LuckCycles.LuckCyclesInfo: the report leaves out the `Date`-valued and constant fields:
  - `rule`;
  - `date_start`/`date_end` of the report and of each cycle;
  - the `utc` text of `to_term`.
  - The cycle count is taken as an integer, as `parseInt` gives, or 0 for NaN.
- Lunar.GregorianToLunar: the day offset is the exact difference of Gregorian day numbers.
  - The JavaScript version floors a difference of local-time milliseconds. It can be one day off across a daylight-saving change in the server's zone, and this is not modelled.
  - Non-integer and NaN date parts are not modelled.
- ManseRoute.ParseDate: each part is read with a decimal-only `Number`. Exponent, hexadecimal, binary/octal and `Infinity` spellings are not modelled.
- ManseRoute.ParseTime: the same restriction to decimal `Number` as `ManseRoute.ParseDate`.
- ManseRoute.FormatIso: takes integer fields. A fractional field (which `parseDate` would let through) prints as `toString` would, and this is not modelled.
- ManseRoute.NormalizeAgeYears: NaN and the infinities are not modelled.
- The `GET` handler of app/api/manse/route.ts (lines 46-118) is not modelled: it is request plumbing, `NextResponse` construction and error reporting.
- Prompts.FormatLuckCycles: a NaN or infinite `start_age` would print as `NaN`/`Infinity`, and this is not modelled. The age is `Math.round` of a finite number.
- GanzhiVisuals.GetElement: keys that name `Object.prototype` properties (such as "constructor") read inherited values in JavaScript. The model treats them as missing. Only one-character keys reach the lookup from `getDayProfileVisuals`.
- GanzhiVisuals.GetBranchAnimalEmoji: the same `Object.prototype` limitation as `GanzhiVisuals.GetElement`.
- Strings are sequences of Unicode code points, not UTF-16 code units. Every character the patterns and the tables test is in the Basic Multilingual Plane. `charAt` on a code whose first glyph is outside it is not modelled.
- MarkdownLinks.TransformLinkTextLink: the expected outputs in lib/utils/markdown.test.ts appear mis-encoded. The lemma uses the icons defined in lib/utils/markdown.ts:2.
- `transformLinkText`'s default parameter (`nyangInjection = false`) is explicit in the model: `Icon(false)` is the default paperclip.
- app/page.tsx is modelled only for the query keys it sends to `/api/manse` (lines 331-335).

## Findings

| source | as written | input that shows it | evidently intended | confidence | as-written member | corrected member |
|---|---|---|---|---|---|---|
| lib/manse.ts:88 | `(y - 1984) % 60` is a truncating remainder, negative for years before 1984, so `ganzhiFromIndex` reads `undefined` glyphs | a birth in 1983 after Lichun: index -1 gives `undefined + undefined`, which is `NaN`, instead of 癸亥, so `ganzhiToKorean` throws and the 卯 month is the mixed pair 甲卯; in 1974, index -10 gives "甲undefined" | the cycle position of the year, counted from 1984 = 甲子 for every year | high (not executed) | Pillars.ManseCalcAsWritten1983 | Pillars.YearPillar |
| lib/manse.ts:233-234 | after the leap month, `isLeap` is cleared without advancing the month, so the walk repeats leap month L forever | 1900-10-23 (lunar 9/1 of 1900, leap month 8) is reported as 8/1, like 1900-08-25 | after leap month L comes month L + 1 | high (not executed) | Lunar.AsWrittenMisdates1900 | Lunar.GregorianToLunar |
| lib/manse.ts:316 | the comma operator returns only the previous-term tuple, so `nextInfo` at line 348 is a number and destructuring it at line 357 throws | any call with direction 1 or -1 | return both tuples as a pair | medium (not executed; depends on native destructuring) | LuckCycles.LuckCyclesInfoAsWritten | LuckCycles.LuckCyclesInfo |
| app/api/manse/route.ts:55 | the route reads `sex`/`gender`, but the page sends `female=true` or `male=true` | the page's request for a woman, `?date=…&time=…&female=true`, is read as male | the gender chosen on the page reaches the luck-cycle direction | high (not executed) | ManseRoute.PageSexIgnored | ManseRoute.PageSexHonoured |
| lib/manse.ts:385 | `(base + direction * n + 600) % 60` is negative once n > 600 + base going backward | backward from 甲子 with 601 cycles: cycle 601 has index -1 and no pillar | the index stepped n times, mod 60 (癸亥 here) | high (not executed) | LuckCycles.CycleIndexAsWrittenNegative | LuckCycles.CycleIndex |
| lib/manse.ts:111-113 | the day index is `floor(JD of local midnight + 0.5) + 50`, which changes with the sign of the zone offset | 2000-01-01 is 戊午 at tz 9 but 己未 at tz 0 | the civil date alone decides the day pillar (2000-01-01 is 戊午) | medium (not executed) | Pillars.DayPillarJ2000AsWritten | Pillars.DayPillar |
