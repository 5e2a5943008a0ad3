/**
 * Badges (Pages/stat/badges/badgeCalculations.js): the catalogue of
 * badges with four levels each, looking a badge up by id, the count a
 * badge is measured by, and the choice of the level reached and the
 * level to aim for next.
 */
module Badges {
  import opened Wrappers
  import Sorting
  import Folds
  import Statistics

  /** One level of a badge: reached once the count is at least `threshold`. */
  datatype Level = Level(name: string, threshold: int)

  datatype Badge = Badge(id: string, name: string, category: string, levels: seq<Level>)

  /** The four levels every badge has, with their thresholds. */
  function Tiers(bronze: int, silver: int, gold: int, platinum: int): seq<Level> {
    [Level("Bronze", bronze), Level("Silver", silver), Level("Gold", gold), Level("Platinum", platinum)]
  }

  /** `BADGES` */
  const Catalogue: seq<Badge> := [
    Badge("consistency_king", "Consistency King", "records", Tiers(10, 50, 100, 250)),
    Badge("task_master", "Task Master", "records", Tiers(1, 5, 10, 25)),
    Badge("quality_champion", "Quality Champion", "rewards", Tiers(10, 50, 100, 250)),
    Badge("epic_achiever", "Epic Achiever", "rewards", Tiers(5, 25, 50, 100)),
    Badge("triple_threat", "Triple Threat", "rewards", Tiers(1, 5, 10, 25)),
    Badge("legendary_trio", "Legendary Trio", "rewards", Tiers(1, 3, 5, 10)),
    Badge("planner_pro", "Planner Pro", "rewards", Tiers(1, 5, 10, 25)),
    Badge("weekend_warrior", "Weekend Warrior", "activity", Tiers(10, 50, 100, 250)),
    Badge("pure_focus_master", "Pure Focus Master", "focus", Tiers(50, 250, 500, 1000)),
    Badge("priority_master", "Priority Master", "priority", Tiers(100, 500, 1000, 2500)),
    Badge("quality_seeker", "Quality Seeker", "quality", Tiers(100, 500, 1000, 2500)),
    Badge("marathon_runner", "Marathon Runner", "endurance", Tiers(10, 50, 100, 250)),
    Badge("consistency_legend", "Consistency Legend", "streak", Tiers(7, 30, 100, 365)),
    Badge("xp_millionaire", "XP Millionaire", "xp", Tiers(10000, 50000, 100000, 500000))
  ]

  /** Positive thresholds in strictly increasing order. */
  predicate Ascending(levels: seq<Level>) {
    && (forall i :: 0 <= i < |levels| ==> levels[i].threshold > 0)
    && (forall i, j :: 0 <= i < j < |levels| ==> levels[i].threshold < levels[j].threshold)
  }

  lemma TiersAscending(bronze: int, silver: int, gold: int, platinum: int)
    requires 0 < bronze < silver < gold < platinum
    ensures Ascending(Tiers(bronze, silver, gold, platinum))
  {
  }

  /** Every badge of the catalogue has positive, strictly increasing thresholds. */
  lemma CatalogueAscending()
    ensures forall k :: 0 <= k < |Catalogue| ==> Ascending(Catalogue[k].levels)
  {
    TiersAscending(10, 50, 100, 250);
    TiersAscending(1, 5, 10, 25);
    TiersAscending(5, 25, 50, 100);
    TiersAscending(1, 3, 5, 10);
    TiersAscending(50, 250, 500, 1000);
    TiersAscending(100, 500, 1000, 2500);
    TiersAscending(7, 30, 100, 365);
    TiersAscending(10000, 50000, 100000, 500000);
  }

  /** `BADGES.find(b => b.id === id)` over a list of badges. */
  function FindIn(badges: seq<Badge>, id: string): (r: Option<Badge>)
    ensures r.None? <==> forall k :: 0 <= k < |badges| ==> badges[k].id != id
    ensures r.Some? ==> exists k :: && 0 <= k < |badges| && badges[k] == r.value && r.value.id == id
                                    && forall j :: 0 <= j < k ==> badges[j].id != id
  {
    if badges == [] then None
    else if badges[0].id == id then Some(badges[0])
    else
      var r := FindIn(badges[1..], id);
      assert forall k :: 1 <= k < |badges| ==> badges[k] == badges[1..][k - 1];
      r
  }

  /**
   * getBadgeById: the catalogue's badge with that id; nothing for an id
   * no badge has. A badge found has positive, increasing thresholds.
   */
  function GetBadgeById(id: string): (r: Option<Badge>)
    ensures r.None? <==> forall k :: 0 <= k < |Catalogue| ==> Catalogue[k].id != id
    ensures r.Some? ==> r.value in Catalogue && r.value.id == id && Ascending(r.value.levels)
  {
    CatalogueAscending();
    FindIn(Catalogue, id)
  }

  /** `b.category === category` */
  function InCategory(category: string): Badge -> bool {
    (b: Badge) => b.category == category
  }

  /** getBadgesByCategory: exactly the catalogue's badges of that category. */
  function BadgesByCategory(category: string): (r: seq<Badge>)
    ensures forall b :: b in r <==> b in Catalogue && b.category == category
    ensures |r| <= |Catalogue|
  {
    Sorting.Filter(Catalogue, InCategory(category))
  }

  /** An example of a failed lookup: "streak_master" is not a catalogue id, so nothing is found. */
  lemma UnknownBadge()
    ensures GetBadgeById("streak_master").None?
  {
    assert forall k :: 0 <= k < |Catalogue| ==> Catalogue[k].id != "streak_master" by {
      forall k | 0 <= k < |Catalogue| ensures Catalogue[k].id != "streak_master" {
        assert Catalogue[k].id[0] != 's' || Catalogue[k].id[1] != 't' || |Catalogue[k].id| != 13;
      }
    }
  }

  // ---------------------------------------------------------------------------
  // Counts
  // ---------------------------------------------------------------------------

  /** An entry of the bonus history. */
  datatype Bonus = Bonus(bonusId: string)

  /** `bonusHistory.filter(b => b.bonusId === bonusId).length` */
  function BonusCount(history: seq<Bonus>, bonusId: string): (n: nat)
    ensures n <= |history|
    ensures n == 0 <==> forall i :: 0 <= i < |history| ==> history[i].bonusId != bonusId
  {
    var matching := Sorting.Filter(history, (b: Bonus) => b.bonusId == bonusId);
    assert matching != [] ==> matching[0] in matching;
    assert forall i :: 0 <= i < |history| && history[i].bonusId == bonusId ==> history[i] in matching;
    |matching|
  }

  /**
   * A completed task of grade A, priority 1 and pure time quality that
   * took at least `minMinutes` (a missing actual duration counting as 0).
   */
  predicate TopTask(item: Statistics.StatItem, minMinutes: int) {
    && Statistics.Completed(item)
    && item.taskQuality == Some("A")
    && item.priority == Some(1)
    && item.timeQuality == Some("pure")
    && Statistics.ActualOf(item) >= minMinutes
  }

  function TopTasks(minMinutes: int): Statistics.StatItem -> bool {
    (item: Statistics.StatItem) => TopTask(item, minMinutes)
  }

  /** The Type 1 tasks of quality_champion: top tasks of at least two hours. */
  function QualityChampionCount(items: seq<Statistics.StatItem>): (n: nat)
    ensures n <= |items|
    ensures n == 0 <==> forall i :: 0 <= i < |items| ==> !TopTask(items[i], 120)
  {
    var top := Sorting.Filter(items, TopTasks(120));
    assert top != [] ==> top[0] in top;
    assert forall i :: 0 <= i < |items| && TopTask(items[i], 120) ==> items[i] in top;
    |top|
  }

  /** The Type 2 tasks of epic_achiever: top tasks of at least four hours. */
  function EpicAchieverCount(items: seq<Statistics.StatItem>): (n: nat)
    ensures n <= |items|
    ensures n == 0 <==> forall i :: 0 <= i < |items| ==> !TopTask(items[i], 240)
  {
    var top := Sorting.Filter(items, TopTasks(240));
    assert top != [] ==> top[0] in top;
    assert forall i :: 0 <= i < |items| && TopTask(items[i], 240) ==> items[i] in top;
    |top|
  }

  /** Every Type 2 task is a Type 1 task, so epic_achiever never counts more than quality_champion. */
  lemma EpicAtMostChampion(items: seq<Statistics.StatItem>)
    ensures EpicAchieverCount(items) <= QualityChampionCount(items)
  {
    Folds.FilterStronger(items, TopTasks(240), TopTasks(120));
  }

  /** A top task counts for quality_champion exactly when it took at least 120 minutes. */
  lemma ChampionThreshold(item: Statistics.StatItem)
    ensures QualityChampionCount([item]) == 1 <==> TopTask(item, 120)
    ensures EpicAchieverCount([item]) == 1 <==> TopTask(item, 240)
  {
    assert [item][1..] == [];
  }

  function CompletedWhere(p: Statistics.StatItem -> bool): Statistics.StatItem -> bool {
    (item: Statistics.StatItem) => Statistics.Completed(item) && p(item)
  }

  /**
   * The count a badge is measured by. The weekend count and the current
   * streak depend on the calendar and the clock and are given.
   */
  function BadgeCount(badgeId: string, items: seq<Statistics.StatItem>, bonusHistory: seq<Bonus>,
                      weekendDays: nat, currentStreak: nat): (count: real)
    ensures badgeId == "quality_champion" ==> count == QualityChampionCount(items) as real
    ensures badgeId == "epic_achiever" ==> count == EpicAchieverCount(items) as real
    ensures badgeId == "xp_millionaire" ==> count == Statistics.TotalXp(items) as real
    ensures badgeId !in KnownCounts() ==> count == 0.0
  {
    match badgeId
    case "consistency_king" => BonusCount(bonusHistory, "beat_yesterday_xp") as real
    case "task_master" => BonusCount(bonusHistory, "twelfth_task_of_day") as real
    case "quality_champion" => QualityChampionCount(items) as real
    case "epic_achiever" => EpicAchieverCount(items) as real
    case "triple_threat" => BonusCount(bonusHistory, "three_type1_tasks") as real
    case "legendary_trio" => BonusCount(bonusHistory, "three_type2_tasks") as real
    case "planner_pro" => BonusCount(bonusHistory, "week_fully_planned") as real
    case "weekend_warrior" => weekendDays as real
    case "pure_focus_master" =>
      var pure := Sorting.Filter(items, CompletedWhere((item: Statistics.StatItem) => item.timeQuality == Some("pure")));
      Folds.Sum(pure, Statistics.ActualOf) as real / 60.0
    case "priority_master" =>
      |Sorting.Filter(items, CompletedWhere((item: Statistics.StatItem) => item.priority == Some(1)))| as real
    case "quality_seeker" =>
      |Sorting.Filter(items, CompletedWhere((item: Statistics.StatItem) => item.taskQuality == Some("A")))| as real
    case "marathon_runner" =>
      |Sorting.Filter(items, CompletedWhere((item: Statistics.StatItem) => Statistics.ActualOf(item) >= 240))| as real
    case "consistency_legend" => currentStreak as real
    case "xp_millionaire" => Statistics.TotalXp(items) as real
    case _ => 0.0
  }

  /** The ids the count switch knows. */
  function KnownCounts(): set<string> {
    {"consistency_king", "task_master", "quality_champion", "epic_achiever", "triple_threat",
     "legendary_trio", "planner_pro", "weekend_warrior", "pure_focus_master", "priority_master",
     "quality_seeker", "marathon_runner", "consistency_legend", "xp_millionaire"}
  }

  // ---------------------------------------------------------------------------
  // Level selection and progress
  // ---------------------------------------------------------------------------

  /**
   * The index of the first level the count does not reach, or the number
   * of levels when it reaches them all; every level before it is reached.
   */
  function FirstUnreached(levels: seq<Level>, count: real): (k: nat)
    ensures k <= |levels|
    ensures forall i :: 0 <= i < k ==> levels[i].threshold as real <= count
    ensures k < |levels| ==> count < levels[k].threshold as real
  {
    if levels == [] || count < levels[0].threshold as real then 0
    else
      var k := FirstUnreached(levels[1..], count);
      assert forall i :: 1 <= i < |levels| ==> levels[i] == levels[1..][i - 1];
      k + 1
  }

  /**
   * With increasing thresholds, the levels reached are exactly those
   * before the first unreached one: the level before it is the highest
   * level reached and the level at it the lowest one not reached.
   */
  lemma ReachedIffBefore(levels: seq<Level>, count: real)
    requires Ascending(levels)
    ensures forall i :: 0 <= i < |levels| ==>
              (levels[i].threshold as real <= count <==> i < FirstUnreached(levels, count))
  {
    var k := FirstUnreached(levels, count);
    forall i | k <= i < |levels|
      ensures count < levels[i].threshold as real
    {
      if k < i {
        assert levels[k].threshold < levels[i].threshold;
      }
    }
  }

  /**
   * The loop over the levels: `currentLevel` is the level before the
   * first unreached one (none when the first is unreached) and
   * `nextLevel` the first unreached one (none when all are reached).
   */
  method SelectLevels(levels: seq<Level>, count: real) returns (current: Option<Level>, next: Option<Level>)
    ensures var k := FirstUnreached(levels, count);
            && current == (if k == 0 then None else Some(levels[k - 1]))
            && next == (if k < |levels| then Some(levels[k]) else None)
  {
    current, next := None, None;
    var i := 0;
    while i < |levels|
      invariant 0 <= i <= |levels|
      invariant forall j :: 0 <= j < i ==> levels[j].threshold as real <= count
      invariant current == (if i == 0 then None else Some(levels[i - 1]))
      invariant next == (if i == 0 || i == |levels| then None else Some(levels[i]))
    {
      if count >= levels[i].threshold as real {
        current := Some(levels[i]);
        next := if i + 1 < |levels| then Some(levels[i + 1]) else None;
        i := i + 1;
      } else {
        next := Some(levels[i]);
        break;
      }
    }
    FirstUnreachedAt(levels, count, i);
  }

  /** The first unreached index is the only index with all levels before it reached and itself not. */
  lemma FirstUnreachedAt(levels: seq<Level>, count: real, i: nat)
    requires i <= |levels|
    requires forall j :: 0 <= j < i ==> levels[j].threshold as real <= count
    requires i < |levels| ==> count < levels[i].threshold as real
    ensures FirstUnreached(levels, count) == i
  {
  }

  /** `nextLevel ? (count / nextLevel.threshold) * 100 : 100` */
  function Progress(count: real, next: Option<Level>): (p: real)
    requires next.Some? ==> next.value.threshold > 0
    ensures next.None? ==> p == 100.0
    ensures next.Some? ==> p * next.value.threshold as real == count * 100.0
  {
    if next.None? then 100.0 else count / next.value.threshold as real * 100.0
  }

  /**
   * A non-negative count below the next level's threshold gives a
   * progress from 0 up to, but not including, 100; with no next level the
   * progress is 100.
   */
  lemma ProgressBelowFull(count: real, next: Option<Level>)
    requires next.Some? ==> next.value.threshold > 0
    requires 0.0 <= count
    requires next.Some? ==> count < next.value.threshold as real
    ensures 0.0 <= Progress(count, next) <= 100.0
    ensures Progress(count, next) == 100.0 <==> next.None?
  {
    if next.Some? {
      var t: nat := next.value.threshold;
      var q := count / t as real;
      assert q * t as real == count;
      Statistics.ScaleCompare(q, 0.0, t);
      Statistics.ScaleCompare(q, 1.0, t);
    }
  }

  /**
   * `current` is the highest level the count reaches (none if it reaches
   * none) and `next` the lowest level it does not reach (none if it
   * reaches all).
   */
  ghost predicate HighestAndNext(levels: seq<Level>, count: real, current: Option<Level>, next: Option<Level>) {
    && (current.Some? <==> exists i :: 0 <= i < |levels| && levels[i].threshold as real <= count)
    && (current.Some? ==>
          && current.value in levels
          && current.value.threshold as real <= count
          && forall i :: 0 <= i < |levels| && levels[i].threshold as real <= count ==>
               levels[i].threshold <= current.value.threshold)
    && (next.Some? <==> exists i :: 0 <= i < |levels| && count < levels[i].threshold as real)
    && (next.Some? ==>
          && next.value in levels
          && count < next.value.threshold as real
          && forall i :: 0 <= i < |levels| && count < levels[i].threshold as real ==>
               next.value.threshold <= levels[i].threshold)
  }

  /** With increasing thresholds the loop's choice is the highest level reached and the lowest not reached. */
  lemma SelectionMeaning(levels: seq<Level>, count: real)
    requires Ascending(levels)
    ensures var k := FirstUnreached(levels, count);
            HighestAndNext(levels, count,
                           if k == 0 then None else Some(levels[k - 1]),
                           if k < |levels| then Some(levels[k]) else None)
  {
    ReachedIffBefore(levels, count);
    var k := FirstUnreached(levels, count);
    if k > 0 {
      assert levels[k - 1].threshold as real <= count;
    }
    if k < |levels| {
      assert count < levels[k].threshold as real;
    }
  }

  /** What calculateBadgeProgress returns for a known badge. */
  datatype BadgeProgress = BadgeProgress(
    badge: Badge,
    count: real,
    currentLevel: Option<Level>,
    nextLevel: Option<Level>,
    progress: real)

  /**
   * calculateBadgeProgress: nothing for an unknown badge. Otherwise the
   * badge, its count, the highest level the count reaches (none if it
   * reaches none), the lowest level it does not reach (none if it reaches
   * all) and the progress towards that level, which for a non-negative
   * count is 100 exactly when there is no next level and below 100
   * otherwise.
   */
  method CalculateBadgeProgress(badgeId: string, items: seq<Statistics.StatItem>, bonusHistory: seq<Bonus>,
                                weekendDays: nat, currentStreak: nat)
    returns (r: Option<BadgeProgress>)
    ensures r.None? <==> GetBadgeById(badgeId).None?
    ensures r.Some? ==>
              && r.value.badge == GetBadgeById(badgeId).value
              && r.value.count == BadgeCount(badgeId, items, bonusHistory, weekendDays, currentStreak)
    ensures r.Some? ==>
              HighestAndNext(r.value.badge.levels, r.value.count, r.value.currentLevel, r.value.nextLevel)
    ensures r.Some? ==>
              && (r.value.nextLevel.Some? ==> r.value.nextLevel.value.threshold > 0)
              && r.value.progress == Progress(r.value.count, r.value.nextLevel)
    ensures r.Some? && r.value.count >= 0.0 ==>
              && 0.0 <= r.value.progress <= 100.0
              && (r.value.progress == 100.0 <==> r.value.nextLevel.None?)
  {
    var badge := GetBadgeById(badgeId);
    if badge.None? {
      return None;
    }
    var count := BadgeCount(badgeId, items, bonusHistory, weekendDays, currentStreak);
    var levels := badge.value.levels;
    var current, next := SelectLevels(levels, count);
    SelectionMeaning(levels, count);
    var progress := Progress(count, next);
    if count >= 0.0 {
      ProgressBelowFull(count, next);
    }
    r := Some(BadgeProgress(badge.value, count, current, next, progress));
  }
}
