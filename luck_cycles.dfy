/**
 * The luck-cycle (daeun) schedule: the direction rule, the choice of the
 * solar term crossing that starts the count, the start age at three days
 * to a year, and the ten-year entries with their month-pillar codes.
 *
 * The Julian days of the term crossings come from the bisection over the
 * trigonometric sun model, which is not part of this model: they are the
 * values of a function parameter `crossing(year, degrees, guessMonth)`.
 * The birth's solar longitude is an input too. Calendar dates of the
 * entries (`Date` arithmetic and ISO formatting) are not modelled.
 */
module LuckCycles {
  import opened Wrappers
  import opened JsNumbers
  import opened Sexagenary
  import opened Pillars

  // -------------------------------------------------------------- terms

  /** A principal solar term: its longitude in degrees, its name and the month it falls in. */
  datatype Term = Term(deg: real, name: string, guessMonth: int)

  /** `TERMS12`: the twelve principal terms, 30 degrees apart from Lichun (315 degrees). */
  const Terms12: seq<Term> := [
    Term(315.0, "입춘", 2), Term(345.0, "경칩", 3), Term(15.0, "청명", 4),
    Term(45.0, "입하", 5), Term(75.0, "망종", 6), Term(105.0, "소서", 7),
    Term(135.0, "입추", 8), Term(165.0, "백로", 9), Term(195.0, "한로", 10),
    Term(225.0, "입동", 11), Term(255.0, "대설", 12), Term(285.0, "소한", 1)]

  /**
   * Term `i` sits at `315 + 30 i` degrees reduced into [0, 360), and falls
   * in the calendar month after the one of term `i - 1`.
   */
  lemma TermsEvery30Degrees(i: int)
    requires 0 <= i < 12
    ensures Terms12[i].deg == JsDegRem(315.0 + 30.0 * (i as real))
    ensures Terms12[i].guessMonth == (i + 1) % 12 + 1
  {
    if i >= 2 {
      assert 315.0 + 30.0 * (i as real) >= 360.0;
    }
  }

  /**
   * The term of a longitude's sector is the last one the sun has crossed:
   * the longitude lies less than 30 degrees past it (modulo 360).
   */
  lemma CurrentTermPrecedes(lambda: real)
    requires 0.0 <= lambda < 360.0
    ensures var d := Terms12[TermIndexFromLongitude(lambda)].deg;
      0.0 <= JsDegRem(lambda - d + 360.0) < 30.0
  {
    var idx := TermIndexFromLongitude(lambda);
    var d := Terms12[idx].deg;
    TermsEvery30Degrees(idx);
    if lambda >= 315.0 {
      assert d == 315.0 + 30.0 * (idx as real);
      assert 360.0 <= lambda - d + 360.0 < 390.0;
    } else if idx >= 2 {
      assert d == 30.0 * (idx as real) - 45.0;
      assert 360.0 <= lambda - d + 360.0 < 390.0;
    } else {
      assert idx == 1 && d == 345.0;
      assert 0.0 <= lambda - d + 360.0 < 30.0;
    }
  }

  /** The next sector's term is 30 degrees further on. */
  lemma NextTermFollows(idx: int)
    requires 0 <= idx < 12
    ensures Terms12[(idx + 1) % 12].deg == JsDegRem(Terms12[idx].deg + 30.0)
  {
    TermsEvery30Degrees(idx);
    TermsEvery30Degrees((idx + 1) % 12);
    if idx == 0 {
      assert Terms12[1].deg == 345.0;
    } else if idx == 1 {
      assert Terms12[2].deg == 15.0;
    } else if idx == 11 {
      assert Terms12[0].deg == 315.0;
    } else {
      assert Terms12[idx].deg + 30.0 < 360.0;
    }
  }

  // ---------------------------------------------------------- direction

  /** `isYangStem`: the stem's table position is even (JavaScript `%`, so -1 is not). */
  predicate IsYangStem(gz: string)
  {
    JsRem(StemIndex(gz), 2) == 0
  }

  /** A code's stem is yang exactly when it is a stem at an even position (甲, 丙, 戊, 庚, 壬). */
  lemma YangStems(gz: string)
    ensures IsYangStem(gz) <==> StemIndex(gz) >= 0 && StemIndex(gz) % 2 == 0
  {
  }

  /**
   * `luckCyclesDirection`: the cycles run forward (+1) for a yang year and a
   * male, or a yin year and a female, and backward (-1) otherwise.
   */
  function LuckCyclesDirection(gzYear: string, isFemale: bool): (r: int)
    ensures r == 1 || r == -1
    ensures r == 1 <==> isFemale != (StemIndex(gzYear) >= 0 && StemIndex(gzYear) % 2 == 0)
  {
    var yangYear := IsYangStem(gzYear);
    if isFemale then (if yangYear then -1 else 1)
    else (if yangYear then 1 else -1)
  }

  // ------------------------------------------------------- term choice

  /** The 1e-9 days by which a crossing must lie after (or before) the birth. */
  const TermEps: real := 0.000000001

  /** `filter((jd) => jd > t)`: the candidates after `t`, in order. */
  function After(s: seq<real>, t: real): (r: seq<real>)
    ensures forall x :: x in r <==> x in s && x > t
  {
    if |s| == 0 then [] else (if s[0] > t then [s[0]] else []) + After(s[1..], t)
  }

  /** `filter((jd) => jd < t)`: the candidates before `t`, in order. */
  function Before(s: seq<real>, t: real): (r: seq<real>)
    ensures forall x :: x in r <==> x in s && x < t
  {
    if |s| == 0 then [] else (if s[0] < t then [s[0]] else []) + Before(s[1..], t)
  }

  /** `reduce((a, b) => (a < b ? a : b))`: the least element. */
  function ReduceMin(s: seq<real>): (r: real)
    requires |s| > 0
    ensures r in s
    ensures forall x :: x in s ==> r <= x
  {
    if |s| == 1 then s[0]
    else
      var init := s[..|s| - 1];
      var a := ReduceMin(init);
      var b := s[|s| - 1];
      assert s == init + [b];
      if a < b then a else b
  }

  /** `reduce((a, b) => (a > b ? a : b))`: the greatest element. */
  function ReduceMax(s: seq<real>): (r: real)
    requires |s| > 0
    ensures r in s
    ensures forall x :: x in s ==> r >= x
  {
    if |s| == 1 then s[0]
    else
      var init := s[..|s| - 1];
      var a := ReduceMax(init);
      var b := s[|s| - 1];
      assert s == init + [b];
      if a > b then a else b
  }

  /**
   * The next crossing: the earliest candidate more than 1e-9 days after the
   * birth, or the earliest of all when none is.
   */
  function NextCrossing(cands: seq<real>, birthJd: real): (r: real)
    requires |cands| > 0
    ensures r in cands
    ensures (exists c :: c in cands && c > birthJd + TermEps) ==>
      r > birthJd + TermEps && forall c :: c in cands && c > birthJd + TermEps ==> r <= c
    ensures (forall c :: c in cands ==> c <= birthJd + TermEps) ==> forall c :: c in cands ==> r <= c
  {
    var after := After(cands, birthJd + TermEps);
    if |after| > 0 then ReduceMin(after) else ReduceMin(cands)
  }

  /**
   * The previous crossing: the latest candidate more than 1e-9 days before
   * the birth, or the latest of all when none is.
   */
  function PrevCrossing(cands: seq<real>, birthJd: real): (r: real)
    requires |cands| > 0
    ensures r in cands
    ensures (exists c :: c in cands && c < birthJd - TermEps) ==>
      r < birthJd - TermEps && forall c :: c in cands && c < birthJd - TermEps ==> r >= c
    ensures (forall c :: c in cands ==> c >= birthJd - TermEps) ==> forall c :: c in cands ==> r >= c
  {
    var before := Before(cands, birthJd - TermEps);
    if |before| > 0 then ReduceMax(before) else ReduceMax(cands)
  }

  /** `termTimeCandidatesNear`: the term's crossings in the year before, of and after the birth. */
  function Candidates(birthYear: int, term: Term, crossing: (int, real, int) -> real): seq<real>
  {
    [crossing(birthYear - 1, term.deg, term.guessMonth),
     crossing(birthYear, term.deg, term.guessMonth),
     crossing(birthYear + 1, term.deg, term.guessMonth)]
  }

  /** A chosen crossing: its Julian day, and the name and degrees of its term. */
  datatype TermTime = TermTime(jd: real, name: string, deg: real)

  /**
   * `nextPrevTermTimes` as its authors meant it: the next crossing of
   * `nextTerm` and the previous crossing of `prevTerm`, each chosen among
   * that term's three candidate years.
   */
  function NextPrevTermTimes(birthJd: real, birthYear: int, nextTerm: Term, prevTerm: Term,
                             crossing: (int, real, int) -> real): (r: (TermTime, TermTime))
    ensures r.0.name == nextTerm.name && r.0.deg == nextTerm.deg
    ensures r.0.jd in Candidates(birthYear, nextTerm, crossing)
    ensures r.1.name == prevTerm.name && r.1.deg == prevTerm.deg
    ensures r.1.jd in Candidates(birthYear, prevTerm, crossing)
  {
    var next := NextCrossing(Candidates(birthYear, nextTerm, crossing), birthJd);
    var prev := PrevCrossing(Candidates(birthYear, prevTerm, crossing), birthJd);
    (TermTime(next, nextTerm.name, nextTerm.deg), TermTime(prev, prevTerm.name, prevTerm.deg))
  }

  // --------------------------------------------- the JavaScript values

  /** The JavaScript values the as-written destructuring meets. */
  datatype JsValue = Undefined | Number(x: real) | Text(s: string) | Array(items: seq<JsValue>)

  /** Why `luckCyclesInfo` throws. */
  datatype LuckError =
    | InvalidDirection                 // direction is neither +1 nor -1
    | InvalidMonthPillar(code: string) // i60FromGanzhi rejected the month code
    | NotIterable                      // array destructuring of a non-iterable value

  /**
   * What array destructuring `const [a, b, c] = v` iterates: the items of an
   * array, the characters of a string; anything else throws a TypeError.
   */
  function Elements(v: JsValue): (r: Result<seq<JsValue>, LuckError>)
    ensures r.Failure? <==> v.Undefined? || v.Number?
    ensures r.Failure? ==> r.error == NotIterable
  {
    match v
    case Undefined => Failure(NotIterable)
    case Number(_) => Failure(NotIterable)
    case Text(s) => Success(seq(|s|, i requires 0 <= i < |s| => Text([s[i]])))
    case Array(items) => Success(items)
  }

  /** The `k`-th destructured item: `undefined` past the end. */
  function Item(items: seq<JsValue>, k: nat): JsValue
  {
    if k < |items| then items[k] else Undefined
  }

  /** A term time as the three-element array `[jd, name, deg]`. */
  function TermTimeValue(t: TermTime): seq<JsValue>
  {
    [Number(t.jd), Text(t.name), Number(t.deg)]
  }

  /**
   * `nextPrevTermTimes` as written: `return (next, prev)` is the comma
   * operator, so only the previous crossing's array comes back.
   */
  function NextPrevTermTimesAsWritten(birthJd: real, birthYear: int, nextTerm: Term, prevTerm: Term,
                                      crossing: (int, real, int) -> real): (r: seq<JsValue>)
    ensures r == TermTimeValue(NextPrevTermTimes(birthJd, birthYear, nextTerm, prevTerm, crossing).1)
  {
    var prev := PrevCrossing(Candidates(birthYear, prevTerm, crossing), birthJd);
    TermTimeValue(TermTime(prev, prevTerm.name, prevTerm.deg))
  }

  /**
   * Destructuring that single array as `[nextInfo, prevInfo]` makes
   * `nextInfo` the previous crossing's Julian day, a number, which the next
   * destructuring cannot iterate.
   */
  lemma AsWrittenNextInfoIsNumber(birthJd: real, birthYear: int, nextTerm: Term, prevTerm: Term,
                                  crossing: (int, real, int) -> real)
    ensures var pair := NextPrevTermTimesAsWritten(birthJd, birthYear, nextTerm, prevTerm, crossing);
      Item(pair, 0) == Number(NextPrevTermTimes(birthJd, birthYear, nextTerm, prevTerm, crossing).1.jd) &&
      Elements(Item(pair, 0)) == Failure(NotIterable)
  {
  }

  // ---------------------------------------------------------- schedule

  /** One luck cycle: its number from 1, its start and end age in years, and its pillar code. */
  datatype Cycle = Cycle(n: int, ageStart: real, ageEnd: real, pillar: Option<string>)

  /** What `luckCyclesInfo` reports, without its calendar dates. */
  datatype LuckInfo = LuckInfo(
    forward: bool,          // direction 'forward' or 'backward'
    birthLongitude: real,
    currentTerm: Term,
    toTerm: TermTime,
    days: real,
    startAge: real,
    cycles: seq<Cycle>)

  /**
   * The 60-cycle index of cycle `n` as written: `(base + direction * n + 600) % 60`
   * with the JavaScript remainder. It lies strictly between -60 and 60, and
   * whenever it is not negative it is the corrected index.
   */
  function CycleIndexAsWritten(base: int, direction: int, n: int): (r: int)
    ensures -60 < r < 60
    ensures r >= 0 ==> r == CycleIndex(base, direction, n)
  {
    var x := base + direction * n;
    var r := JsRem(x + 600, 60);
    if r < 0 then r
    else
      NonNegativeRemainder(x + 600);
      ShiftByMultiple(10, x);
      r
  }

  /** The 60-cycle index of cycle `n`: `n` steps from the month pillar in the cycle's direction. */
  function CycleIndex(base: int, direction: int, n: int): (r: int)
    ensures 0 <= r < 60
  {
    (base + direction * n) % 60
  }

  /** Each cycle moves one step along the 60-cycle in its direction. */
  lemma CycleIndexStep(base: int, direction: int, n: int)
    ensures CycleIndex(base, direction, n + 1) == (CycleIndex(base, direction, n) + direction) % 60
  {
    var x := base + direction * n;
    assert base + direction * (n + 1) == x + direction;
    var q := x / 60;
    assert x + direction == 60 * q + (x % 60 + direction);
    ShiftByMultiple(q, x % 60 + direction);
  }

  /** Adding a multiple of 60 does not change the residue. */
  lemma ShiftByMultiple(q: int, y: int)
    ensures (60 * q + y) % 60 == y % 60
  {
    var p, s := y / 60, y % 60;
    assert 60 * q + y == 60 * (q + p) + s;
  }

  /** While `base + direction n + 600` is not negative the code as written agrees. */
  lemma CycleIndexAsWrittenAgrees(base: int, direction: int, n: int)
    requires base + direction * n + 600 >= 0
    ensures CycleIndexAsWritten(base, direction, n) == CycleIndex(base, direction, n)
  {
    ShiftByMultiple(10, base + direction * n);
  }

  /**
   * With the month pillar 甲子 (base 0), backward, cycle 601 gets index -1
   * as written, which names no pillar; its index is 59 (癸亥).
   */
  lemma CycleIndexAsWrittenNegative()
    ensures CycleIndexAsWritten(0, -1, 601) == -1
    ensures GanzhiFromIndex(CycleIndexAsWritten(0, -1, 601)).None?
    ensures CycleIndex(0, -1, 601) == 59 && GanzhiFromIndex(59) == Some("癸亥")
  {
    assert [Stems[9], Branches[11]] == "癸亥";
  }

  /** `Math.max(0, cycles)`: `Array.from` makes no entries for a negative length. */
  function EntryCount(cycles: int): (r: nat)
    ensures r == 0 || r == cycles
  {
    if cycles < 0 then 0 else cycles
  }

  /**
   * The entries for a start age, month-pillar index and direction: entry `k`
   * is cycle `k + 1`, from age `startAge + 10 k` to `startAge + 10 (k + 1)`.
   */
  predicate IsSchedule(cs: seq<Cycle>, startAge: real, base: int, direction: int, cycles: int)
  {
    |cs| == EntryCount(cycles) &&
    forall k :: 0 <= k < |cs| ==> cs[k] == Cycle(k + 1, startAge + (k * 10) as real,
      startAge + ((k + 1) * 10) as real, GanzhiFromIndex(CycleIndex(base, direction, k + 1)))
  }

  /**
   * In a schedule every cycle spans ten years, the first starts at the
   * start age and each starts where the previous one ends.
   */
  lemma ScheduleAges(cs: seq<Cycle>, startAge: real, base: int, direction: int, cycles: int)
    requires IsSchedule(cs, startAge, base, direction, cycles)
    ensures forall k :: 0 <= k < |cs| ==> cs[k].ageEnd - cs[k].ageStart == 10.0
    ensures |cs| > 0 ==> cs[0].ageStart == startAge
    ensures forall k :: 0 < k < |cs| ==> cs[k].ageStart == cs[k - 1].ageEnd
  {
  }

  /**
   * In a schedule every pillar is a valid code, and successive pillars are
   * one step apart on the 60-cycle in the schedule's direction.
   */
  lemma SchedulePillars(cs: seq<Cycle>, startAge: real, base: int, direction: int, cycles: int)
    requires IsSchedule(cs, startAge, base, direction, cycles)
    ensures forall k :: 0 <= k < |cs| ==>
      cs[k].pillar.Some? && ValidPair(StemIndex(cs[k].pillar.value), BranchIndex(cs[k].pillar.value)) &&
      I60Of(StemIndex(cs[k].pillar.value), BranchIndex(cs[k].pillar.value)) == CycleIndex(base, direction, k + 1)
    ensures forall k :: 0 < k < |cs| ==>
      CycleIndex(base, direction, k + 1) == (CycleIndex(base, direction, k) + direction) % 60
  {
    forall k | 0 <= k < |cs|
      ensures cs[k].pillar.Some? && ValidPair(StemIndex(cs[k].pillar.value), BranchIndex(cs[k].pillar.value))
      ensures I60Of(StemIndex(cs[k].pillar.value), BranchIndex(cs[k].pillar.value)) == CycleIndex(base, direction, k + 1)
    {
      RoundTrip(CycleIndex(base, direction, k + 1));
    }
    forall k | 0 < k < |cs|
      ensures CycleIndex(base, direction, k + 1) == (CycleIndex(base, direction, k) + direction) % 60
    {
      CycleIndexStep(base, direction, k);
    }
  }

  /**
   * The `Array.from` that lays out the cycles: entry `k` is cycle `k + 1`,
   * ten years long, with the pillar `k + 1` steps from the month pillar.
   */
  method Schedule(startAge: real, base: int, direction: int, cycles: int) returns (entries: seq<Cycle>)
    ensures IsSchedule(entries, startAge, base, direction, cycles)
  {
    entries := [];
    while |entries| < cycles
      invariant |entries| <= EntryCount(cycles)
      invariant forall k :: 0 <= k < |entries| ==> entries[k] == Cycle(k + 1, startAge + (k * 10) as real,
        startAge + ((k + 1) * 10) as real, GanzhiFromIndex(CycleIndex(base, direction, k + 1)))
    {
      var n := |entries| + 1;
      var i60 := CycleIndex(base, direction, n);
      var ageStart := startAge + ((n - 1) * 10) as real;
      var ageEnd := startAge + (n * 10) as real;
      entries := entries + [Cycle(n, ageStart, ageEnd, GanzhiFromIndex(i60))];
    }
  }

  /**
   * `luckCyclesInfo` with the intended pair of crossings and the
   * non-negative cycle index: it throws for a direction other than +1 and
   * -1 and for an invalid month code; otherwise it counts the days to the
   * next (forward) or from the previous (backward) principal term crossing,
   * starts the cycles at a third of that many years and lays out the
   * schedule.
   */
  method LuckCyclesInfo(birthJd: real, birthYear: int, lambda: real, gzMonth: string, direction: int,
                        cycles: int, crossing: (int, real, int) -> real)
      returns (r: Result<LuckInfo, LuckError>)
    requires 0.0 <= lambda < 360.0
    ensures r.Success? <==> (direction == 1 || direction == -1) && ValidPair(StemIndex(gzMonth), BranchIndex(gzMonth))
    ensures direction != 1 && direction != -1 ==> r == Failure(InvalidDirection)
    ensures (direction == 1 || direction == -1) && r.Failure? ==> r.error == InvalidMonthPillar(gzMonth)
    ensures r.Success? ==>
      var idx := TermIndexFromLongitude(lambda);
      var times := NextPrevTermTimes(birthJd, birthYear, Terms12[(idx + 1) % 12], Terms12[idx], crossing);
      var info := r.value;
      info.forward == (direction == 1) &&
      info.birthLongitude == lambda &&
      info.currentTerm == Terms12[idx] &&
      info.toTerm == (if direction == 1 then times.0 else times.1) &&
      info.days >= 0.0 &&
      info.days == Max(0.0, if direction == 1 then times.0.jd - birthJd else birthJd - times.1.jd) &&
      info.startAge == info.days / 3.0 &&
      IsSchedule(info.cycles, info.startAge, I60Of(StemIndex(gzMonth), BranchIndex(gzMonth)), direction, cycles)
  {
    if direction != 1 && direction != -1 {
      return Failure(InvalidDirection);
    }
    var idx := TermIndexFromLongitude(lambda);
    var curTerm := Terms12[idx];
    var nextTerm := Terms12[(idx + 1) % 12];
    var prevTerm := Terms12[idx];
    var (nextInfo, prevInfo) := NextPrevTermTimes(birthJd, birthYear, nextTerm, prevTerm, crossing);

    var target: TermTime;
    var days: real;
    var forward: bool;
    if direction == 1 {
      target := nextInfo;
      days := Max(0.0, target.jd - birthJd);
      forward := true;
    } else {
      target := prevInfo;
      days := Max(0.0, birthJd - target.jd);
      forward := false;
    }

    var startYears := days / 3.0;
    var baseResult := I60FromGanzhi(gzMonth);
    if baseResult.Failure? {
      return Failure(InvalidMonthPillar(gzMonth));
    }
    var base := baseResult.value;

    var entries := Schedule(startYears, base, direction, cycles);
    return Success(LuckInfo(forward, lambda, curTerm, target, days, startYears, entries));
  }

  /**
   * `luckCyclesInfo` as written: after the direction check it destructures
   * the single array `nextPrevTermTimes` returns, and the destructuring of
   * its first item, a number, throws. Every call throws.
   */
  method LuckCyclesInfoAsWritten(birthJd: real, birthYear: int, lambda: real, gzMonth: string, direction: int,
                                 cycles: int, crossing: (int, real, int) -> real)
      returns (r: Result<LuckInfo, LuckError>)
    requires 0.0 <= lambda < 360.0
    ensures r == Failure(if direction == 1 || direction == -1 then NotIterable else InvalidDirection)
  {
    if direction != 1 && direction != -1 {
      return Failure(InvalidDirection);
    }
    var idx := TermIndexFromLongitude(lambda);
    var nextTerm := Terms12[(idx + 1) % 12];
    var prevTerm := Terms12[idx];
    var pair := NextPrevTermTimesAsWritten(birthJd, birthYear, nextTerm, prevTerm, crossing);
    var nextInfo := Item(pair, 0);
    var nextParts := Elements(nextInfo);
    if nextParts.Success? {
      assert false;
    }
    return Failure(nextParts.error);
  }
}
