/**
 * The XP scoring formula and the level model of the backend
 * (backend/utils/xp.py). A completed task is scored from its durations,
 * its quality grade, its time quality and its priority; a project's level
 * is the integer square root of its cumulative XP divided by 100.
 *
 * The formula is written over `real`: Python evaluates it in floating
 * point, the model evaluates it exactly.
 */
module Xp {
  import opened Wrappers

  /** Task quality grades (TaskQualityEnum); A is the best. */
  datatype Grade = A | B | C | D

  /** Time quality (TimeQualityEnum): "pure" or "not-pure". */
  datatype TimeQuality = Pure | NotPure

  /** The flat offset the formula adds before flooring. */
  const XpOffset: real := 40.0

  /** `quality_map.get(task_quality, 1)`. */
  function QualityMultiplier(quality: Option<Grade>): (m: real)
    ensures 1.0 <= m <= 4.0
    ensures quality.Some? ==> m == (GradeRank(quality.value) + 1) as real
    ensures quality.None? ==> m == 1.0
  {
    match quality
    case Some(A) => 4.0
    case Some(B) => 3.0
    case Some(C) => 2.0
    case Some(D) => 1.0
    case None => 1.0
  }

  /** A numeric rank for grades, D lowest: used to state that a better grade never scores less. */
  function GradeRank(g: Grade): nat {
    match g
    case A => 3
    case B => 2
    case C => 1
    case D => 0
  }

  function TimeQualityMultiplier(timeQuality: Option<TimeQuality>): (m: real)
    ensures m == 1.5 <==> timeQuality == Some(Pure)
    ensures m != 1.5 ==> m == 1.0
  {
    if timeQuality == Some(Pure) then 1.5 else 1.0
  }

  /** Priority 1, 2 and 3 earn 1.5, 1.4 and 1.3; any other value or none earns 1.0. */
  function PriorityMultiplier(priority: Option<int>): (m: real)
    ensures 1.0 <= m <= 1.5
    ensures priority.Some? && 1 <= priority.value <= 3 ==> m == 1.6 - priority.value as real / 10.0
    ensures !(priority.Some? && 1 <= priority.value <= 3) ==> m == 1.0
  {
    if priority == Some(1) then 1.5
    else if priority == Some(2) then 1.4
    else if priority == Some(3) then 1.3
    else 1.0
  }

  /** Python truthiness of an optional integer: present and non-zero. */
  predicate Truthy(n: Option<int>) {
    n.Some? && n.value != 0
  }

  /**
   * The duration penalty. It is 1.0 unless both durations are truthy;
   * otherwise the ratio actual/estimated picks a band that depends on
   * whether the grade is A/B or C/D.
   */
  function PenaltyMultiplier(actual: int, estimated: Option<int>, quality: Option<Grade>): (p: real)
    ensures p == 0.5 || p == 0.7 || p == 1.0
    ensures !(Truthy(estimated) && actual != 0) ==> p == 1.0
  {
    if !(Truthy(estimated) && actual != 0) then 1.0
    else
      var ratio := Ratio(actual, estimated.value);
      match quality
      case Some(A) => StrictBand(ratio)
      case Some(B) => StrictBand(ratio)
      case Some(C) => LenientBand(ratio)
      case Some(D) => LenientBand(ratio)
      case None => 1.0
  }

  function Ratio(actual: int, estimated: int): real
    requires estimated != 0
  {
    actual as real / estimated as real
  }

  /** The band for grades A and B. */
  function StrictBand(ratio: real): real {
    if 1.5 < ratio <= 2.0 then 0.7
    else if ratio > 2.0 then 0.5
    else if 0.5 <= ratio < 0.8 then 0.7
    else if ratio < 0.5 then 0.5
    else 1.0
  }

  /** The band for grades C and D. */
  function LenientBand(ratio: real): real {
    if (1.2 < ratio <= 1.5) || (0.5 <= ratio < 0.8) then 0.7
    else if ratio > 1.5 || ratio < 0.5 then 0.5
    else 1.0
  }

  /** The product of the base and the four multipliers, before the offset. */
  function WeightedXp(actual: int, estimated: Option<int>, quality: Option<Grade>,
                      timeQuality: Option<TimeQuality>, priority: Option<int>): real
  {
    Product(actual as real / 10.0, QualityMultiplier(quality), TimeQualityMultiplier(timeQuality),
            PriorityMultiplier(priority), PenaltyMultiplier(actual, estimated, quality))
  }

  /** `base * quality * time quality * priority * penalty`, the order xp.py multiplies in. */
  function Product(base: real, q: real, t: real, pr: real, pen: real): real {
    base * q * t * pr * pen
  }

  /** calculate_xp: floor(base * multipliers + 40). */
  function CalculateXp(actual: int, estimated: Option<int>, quality: Option<Grade>,
                       timeQuality: Option<TimeQuality>, priority: Option<int>): (xp: int)
    ensures xp as real <= WeightedXp(actual, estimated, quality, timeQuality, priority) + XpOffset
    ensures WeightedXp(actual, estimated, quality, timeQuality, priority) + XpOffset < xp as real + 1.0
  {
    (WeightedXp(actual, estimated, quality, timeQuality, priority) + XpOffset).Floor
  }

  /** int(math.sqrt(total_xp / 100)), computed as an integer square root. */
  function LevelFromXp(totalXp: nat): (level: nat)
    ensures 100 * level * level <= totalXp < 100 * (level + 1) * (level + 1)
    decreases totalXp
  {
    if totalXp == 0 then 0
    else
      var l := LevelFromXp(totalXp - 1);
      if 100 * (l + 1) * (l + 1) <= totalXp then
        SquareGrows(l + 1);
        l + 1
      else l
  }

  /** calculate_next_level_xp: 100 * (level + 1) ** 2. */
  function NextLevelXp(level: int): (threshold: int)
    ensures level >= 0 ==> threshold >= 0 && LevelFromXp(threshold) == level + 1
  {
    var threshold := 100 * (level + 1) * (level + 1);
    if level >= 0 then
      SquareGrows(level + 1);
      LevelUnique(threshold, level + 1);
      threshold
    else threshold
  }


  // ---------------------------------------------------------------------------
  // Properties of the formula
  // ---------------------------------------------------------------------------

  /** For A and B, the ratio band [0.8, 1.5] carries no penalty, above 2.0 or below 0.5 the harsh one. */
  lemma StrictBandCases(ratio: real)
    ensures StrictBand(ratio) == 1.0 <==> 0.8 <= ratio <= 1.5
    ensures StrictBand(ratio) == 0.5 <==> ratio > 2.0 || ratio < 0.5
    ensures StrictBand(ratio) == 0.7 <==> (1.5 < ratio <= 2.0 || 0.5 <= ratio < 0.8)
  {
  }

  /** For C and D, only [0.8, 1.2] carries no penalty, above 1.5 or below 0.5 the harsh one. */
  lemma LenientBandCases(ratio: real)
    ensures LenientBand(ratio) == 1.0 <==> 0.8 <= ratio <= 1.2
    ensures LenientBand(ratio) == 0.5 <==> ratio > 1.5 || ratio < 0.5
    ensures LenientBand(ratio) == 0.7 <==> (1.2 < ratio <= 1.5 || 0.5 <= ratio < 0.8)
  {
  }

  /** The C/D band never penalises less than the A/B band. */
  lemma LenientBandNoKinder(ratio: real)
    ensures LenientBand(ratio) <= StrictBand(ratio)
  {
  }

  /** With a non-negative actual duration the weighted part is non-negative, so xp >= 40. */
  lemma {:induction false} XpAtLeastOffset(actual: int, estimated: Option<int>, quality: Option<Grade>,
                                           timeQuality: Option<TimeQuality>, priority: Option<int>)
    requires actual >= 0
    ensures CalculateXp(actual, estimated, quality, timeQuality, priority) >= 40
  {
    WeightedXpBounds(actual, estimated, quality, timeQuality, priority);
  }

  /** The multipliers together are at most 4 * 1.5 * 1.5 * 1.0 = 9, so xp <= 40 + 0.9 * actual. */
  lemma {:induction false} XpAtMost(actual: int, estimated: Option<int>, quality: Option<Grade>,
                                    timeQuality: Option<TimeQuality>, priority: Option<int>)
    requires actual >= 0
    ensures CalculateXp(actual, estimated, quality, timeQuality, priority) as real <= 40.0 + 0.9 * actual as real
  {
    WeightedXpBounds(actual, estimated, quality, timeQuality, priority);
  }

  /**
   * For a non-negative actual duration the weighted product lies between 0
   * and 0.9 times the minutes: base actual/10 and multipliers of at most
   * 4, 1.5, 1.5 and 1.
   */
  lemma WeightedXpBounds(actual: int, estimated: Option<int>, quality: Option<Grade>,
                         timeQuality: Option<TimeQuality>, priority: Option<int>)
    requires actual >= 0
    ensures 0.0 <= WeightedXp(actual, estimated, quality, timeQuality, priority) <= 0.9 * actual as real
  {
    var base := actual as real / 10.0;
    var q := QualityMultiplier(quality);
    var t := TimeQualityMultiplier(timeQuality);
    var pr := PriorityMultiplier(priority);
    var pen := PenaltyMultiplier(actual, estimated, quality);
    assert base * q >= 0.0;
    assert base * q * t >= 0.0;
    assert base * q * t * pr >= 0.0;
    assert base * q * t * pr * pen >= 0.0;
    ProductAtMost(base, q, t, pr, pen);
    assert base * 9.0 == 0.9 * actual as real;
  }

  /** The base times multipliers of at most 4, 1.5, 1.5 and 1 is at most 9 times the base. */
  lemma ProductAtMost(base: real, q: real, t: real, pr: real, pen: real)
    requires base >= 0.0
    requires q == 1.0 || q == 2.0 || q == 3.0 || q == 4.0
    requires t == 1.0 || t == 1.5
    requires 1.0 <= pr <= 1.5
    requires pen == 0.5 || pen == 0.7 || pen == 1.0
    ensures base * q * t * pr * pen <= base * 9.0
  {
    assert base * q <= base * 4.0;
    assert base * q * t <= base * 6.0;
    assert base * q * t * pr <= base * 9.0;
  }

  /** Quality multiplier times penalty grows with the grade. */
  lemma GradeWeightMonotone(actual: int, estimated: Option<int>, g1: Grade, g2: Grade)
    requires GradeRank(g1) <= GradeRank(g2)
    ensures QualityMultiplier(Some(g1)) * PenaltyMultiplier(actual, estimated, Some(g1))
         <= QualityMultiplier(Some(g2)) * PenaltyMultiplier(actual, estimated, Some(g2))
  {
    if Truthy(estimated) && actual != 0 {
      LenientBandNoKinder(Ratio(actual, estimated.value));
    }
  }

  lemma Regroup(a: real, b: real, c: real, d: real, e: real)
    ensures a * b * c * d * e == (a * c * d) * (b * e)
  {
  }

  lemma ScaleMonotone(k: real, x: real, y: real)
    requires k >= 0.0 && x <= y
    ensures k * x <= k * y
  {
  }

  lemma WeightedXpGradeMonotone(actual: int, estimated: Option<int>, g1: Grade, g2: Grade,
                                timeQuality: Option<TimeQuality>, priority: Option<int>)
    requires actual >= 0
    requires GradeRank(g1) <= GradeRank(g2)
    ensures WeightedXp(actual, estimated, Some(g1), timeQuality, priority)
         <= WeightedXp(actual, estimated, Some(g2), timeQuality, priority)
  {
    var base, t, pr := actual as real / 10.0, TimeQualityMultiplier(timeQuality), PriorityMultiplier(priority);
    var q1, p1 := QualityMultiplier(Some(g1)), PenaltyMultiplier(actual, estimated, Some(g1));
    var q2, p2 := QualityMultiplier(Some(g2)), PenaltyMultiplier(actual, estimated, Some(g2));
    assert q1 * p1 <= q2 * p2 by {
      GradeWeightMonotone(actual, estimated, g1, g2);
    }
    WeightMonotone(base, t, pr, q1, p1, q2, p2);
  }

  /** With the other factors non-negative and fixed, a larger quality-times-penalty weight gives a larger product. */
  lemma WeightMonotone(base: real, t: real, pr: real, q1: real, p1: real, q2: real, p2: real)
    requires base >= 0.0 && t >= 0.0 && pr >= 0.0
    requires q1 * p1 <= q2 * p2
    ensures Product(base, q1, t, pr, p1) <= Product(base, q2, t, pr, p2)
  {
    Regroup(base, q1, t, pr, p1);
    Regroup(base, q2, t, pr, p2);
    assert base * t >= 0.0;
    assert base * t * pr >= 0.0;
    ScaleMonotone(base * t * pr, q1 * p1, q2 * p2);
  }

  /**
   * Among the four grades, a better grade never scores less: the quality
   * multiplier grows with the grade and the A/B band is never harsher than
   * the C/D band.
   */
  lemma BetterGradeScoresNoLess(actual: int, estimated: Option<int>, g1: Grade, g2: Grade,
                                timeQuality: Option<TimeQuality>, priority: Option<int>)
    requires actual >= 0
    requires GradeRank(g1) <= GradeRank(g2)
    ensures CalculateXp(actual, estimated, Some(g1), timeQuality, priority)
         <= CalculateXp(actual, estimated, Some(g2), timeQuality, priority)
  {
    WeightedXpGradeMonotone(actual, estimated, g1, g2, timeQuality, priority);
  }

  /** One hour of pure A work at priority 1, exactly on estimate: 6 * 4 * 1.5 * 1.5 * 1.0 + 40. */
  lemma PerfectHourScore()
    ensures CalculateXp(60, Some(60), Some(A), Some(Pure), Some(1)) == 94
  {
    assert WeightedXp(60, Some(60), Some(A), Some(Pure), Some(1)) == 54.0;
  }

  // ---------------------------------------------------------------------------
  // Properties of the level model
  // ---------------------------------------------------------------------------

  lemma {:induction false} SquaresMonotone(m: nat, n: nat)
    requires m <= n
    ensures 100 * m * m <= 100 * n * n
  {
    assert m * m <= m * n <= n * n;
  }

  /** The level is the only L with 100 * L^2 <= xp < 100 * (L + 1)^2. */
  lemma {:induction false} LevelUnique(totalXp: nat, level: nat)
    requires 100 * level * level <= totalXp < 100 * (level + 1) * (level + 1)
    ensures level == LevelFromXp(totalXp)
  {
    var l := LevelFromXp(totalXp);
    if level < l {
      SquaresMonotone(level + 1, l);
    } else if l < level {
      SquaresMonotone(l + 1, level);
    }
  }

  /** More XP never means a lower level. */
  lemma {:induction false} LevelMonotone(x: nat, y: nat)
    requires x <= y
    ensures LevelFromXp(x) <= LevelFromXp(y)
  {
    var lx, ly := LevelFromXp(x), LevelFromXp(y);
    if ly < lx {
      SquaresMonotone(ly + 1, lx);
    }
  }

  /** The threshold stored with a level lies strictly above the XP that produced the level. */
  lemma NextLevelAboveXp(totalXp: nat)
    ensures totalXp < NextLevelXp(LevelFromXp(totalXp))
    ensures NextLevelXp(LevelFromXp(totalXp)) - 100 * LevelFromXp(totalXp) * LevelFromXp(totalXp)
            == 200 * LevelFromXp(totalXp) + 100
  {
    var l := LevelFromXp(totalXp);
    SquareExpands(l);
  }

  lemma SquareExpands(l: nat)
    ensures NextLevelXp(l) - 100 * l * l == 200 * l + 100
  {
    calc {
      100 * (l + 1) * (l + 1);
      == 100 * l * l + 200 * l + 100;
    }
  }

  /** A fresh project at 0 XP that receives 64 XP stays at level 0 with threshold 100. */
  lemma LevelOf64()
    ensures LevelFromXp(0) == 0
    ensures LevelFromXp(64) == 0 && NextLevelXp(LevelFromXp(64)) == 100
  {
    LevelUnique(64, 0);
  }

  lemma SquareGrows(n: nat)
    ensures 100 * n * n < 100 * (n + 1) * (n + 1)
  {
    calc {
      100 * (n + 1) * (n + 1);
      == 100 * n * n + 200 * n + 100;
      > 100 * n * n;
    }
  }
}
