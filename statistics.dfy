/**
 * The statistics page's aggregates (Pages/stat/utils/statistics.js): the
 * totals, the streak that ends at a given day, the best streak, the best
 * single XP value and the average task quality.
 *
 * Days are identified by their number in the calendar: `day` is the day
 * that `getItemDay` names for an item (its day id, else its completion
 * time, cut to the date), and the day before day `d` is `d - 1`.
 */
module Statistics {
  import opened Wrappers
  import Sorting
  import Folds
  import ProjectUtils

  /** An item of the statistics page, with the fields the aggregates read. */
  datatype StatItem = StatItem(
    day: int,
    completedTime: Option<string>,
    xpValue: Option<int>,
    actualDuration: Option<int>,
    estimatedDuration: Option<int>,
    itemType: Option<string>,
    taskQuality: Option<string>,
    priority: Option<int>,
    timeQuality: Option<string>)

  /** `item.completed_time` is truthy. */
  predicate Completed(item: StatItem) {
    ProjectUtils.Truthy(item.completedTime)
  }

  /** `item.xp_value || 0` */
  function XpOf(item: StatItem): int {
    item.xpValue.GetOr(0)
  }

  /** `item.actual_duration || 0` */
  function ActualOf(item: StatItem): int {
    item.actualDuration.GetOr(0)
  }

  /** `item.estimated_duration || 0` */
  function EstimateOf(item: StatItem): int {
    item.estimatedDuration.GetOr(0)
  }

  // ---------------------------------------------------------------------------
  // Totals
  // ---------------------------------------------------------------------------

  /** getTotalXP: the XP of every item, a missing value counting as 0. */
  function TotalXp(items: seq<StatItem>): (total: int)
    ensures (forall i :: 0 <= i < |items| ==> XpOf(items[i]) >= 0) ==> total >= 0
  {
    if forall i :: 0 <= i < |items| ==> XpOf(items[i]) >= 0 then
      Folds.SumNonNegative(items, XpOf);
      Folds.Sum(items, XpOf)
    else Folds.Sum(items, XpOf)
  }

  /** getTotalXP of two lists put together is the sum of their totals. */
  lemma TotalXpAppend(a: seq<StatItem>, b: seq<StatItem>)
    ensures TotalXp(a + b) == TotalXp(a) + TotalXp(b)
  {
    Folds.SumAppend(a, b, XpOf);
  }

  /** A list of one item totals that item's XP, 0 when it has none. */
  lemma TotalXpSingle(item: StatItem)
    ensures TotalXp([item]) == if item.xpValue.Some? then item.xpValue.value else 0
  {
    assert Folds.Sum([item], XpOf) == XpOf(item) + Folds.Sum([], XpOf);
  }

  function CompletedFilter(): StatItem -> bool {
    (item: StatItem) => Completed(item)
  }

  /** getTotalTasks: the number of completed items. */
  function TotalTasks(items: seq<StatItem>): (n: nat)
    ensures n <= |items|
    ensures n == |items| <== forall i :: 0 <= i < |items| ==> Completed(items[i])
  {
    CountCompleted(items);
    |Sorting.Filter(items, CompletedFilter())|
  }

  lemma {:induction false} CountCompleted(items: seq<StatItem>)
    ensures (forall i :: 0 <= i < |items| ==> Completed(items[i]))
              ==> |Sorting.Filter(items, CompletedFilter())| == |items|
  {
    if items != [] {
      CountCompleted(items[1..]);
      if forall i :: 0 <= i < |items| ==> Completed(items[i]) {
        assert forall i :: 0 <= i < |items[1..]| ==> Completed(items[1..][i]) by {
          forall i | 0 <= i < |items[1..]| ensures Completed(items[1..][i]) {
            assert items[1..][i] == items[i + 1];
          }
        }
      }
    }
  }

  /** A single item counts 1 when it is completed and 0 otherwise. */
  lemma TotalTasksSingle(item: StatItem)
    ensures TotalTasks([item]) == if Completed(item) then 1 else 0
  {
    assert Sorting.Filter([item], CompletedFilter())
        == (if CompletedFilter()(item) then [item] else []) + Sorting.Filter([], CompletedFilter());
  }

  /** getTotalTasks counts each list of a concatenation separately. */
  lemma TotalTasksAppend(a: seq<StatItem>, b: seq<StatItem>)
    ensures TotalTasks(a + b) == TotalTasks(a) + TotalTasks(b)
  {
    Folds.FilterAppend(a, b, CompletedFilter());
  }

  /**
   * getTotalActualDuration: the actual durations of all items, completed
   * or not, a missing one counting as 0.
   */
  function TotalActualDuration(items: seq<StatItem>): (total: int)
    ensures (forall i :: 0 <= i < |items| ==> ActualOf(items[i]) >= 0) ==> total >= 0
  {
    if forall i :: 0 <= i < |items| ==> ActualOf(items[i]) >= 0 then
      Folds.SumNonNegative(items, ActualOf);
      Folds.Sum(items, ActualOf)
    else Folds.Sum(items, ActualOf)
  }

  /** getTotalActualDuration of two lists put together is the sum of their totals. */
  lemma TotalActualAppend(a: seq<StatItem>, b: seq<StatItem>)
    ensures TotalActualDuration(a + b) == TotalActualDuration(a) + TotalActualDuration(b)
  {
    Folds.SumAppend(a, b, ActualOf);
  }

  /** A list of one item totals that item's actual duration, 0 when it has none. */
  lemma TotalActualSingle(item: StatItem)
    ensures TotalActualDuration([item]) == if item.actualDuration.Some? then item.actualDuration.value else 0
  {
    assert Folds.Sum([item], ActualOf) == ActualOf(item) + Folds.Sum([], ActualOf);
  }

  /** With no negative durations, the total is at least every single item's duration. */
  lemma {:induction false} TotalActualBounds(items: seq<StatItem>)
    requires forall i :: 0 <= i < |items| ==> ActualOf(items[i]) >= 0
    ensures 0 <= TotalActualDuration(items)
    ensures forall i :: 0 <= i < |items| ==> ActualOf(items[i]) <= TotalActualDuration(items)
  {
    if items != [] {
      TotalActualBounds(items[1..]);
      forall i | 1 <= i < |items|
        ensures ActualOf(items[i]) <= TotalActualDuration(items[1..])
      {
        assert items[1..][i - 1] == items[i];
      }
    }
  }

  /** `item.type !== 'daily_basic'` */
  function Planned(): StatItem -> bool {
    (item: StatItem) => item.itemType != Some("daily_basic")
  }

  /**
   * getTotalPlannedDuration: the estimates (missing counting as 0) of the
   * items that are not daily basics.
   */
  function TotalPlannedDuration(items: seq<StatItem>): (total: int)
    ensures (forall i :: 0 <= i < |items| ==> EstimateOf(items[i]) >= 0) ==>
              0 <= total <= Folds.Sum(items, EstimateOf)
  {
    if forall i :: 0 <= i < |items| ==> EstimateOf(items[i]) >= 0 then
      Folds.FilteredSumBounds(items, Planned(), EstimateOf);
      Folds.Sum(Sorting.Filter(items, Planned()), EstimateOf)
    else Folds.Sum(Sorting.Filter(items, Planned()), EstimateOf)
  }

  /**
   * Adding a daily-basic item changes nothing; adding any other item adds
   * its estimate.
   */
  lemma PlannedDurationAdd(items: seq<StatItem>, item: StatItem)
    ensures TotalPlannedDuration(items + [item])
         == TotalPlannedDuration(items) + if item.itemType == Some("daily_basic") then 0 else EstimateOf(item)
  {
    Folds.FilterAppend(items, [item], Planned());
    assert Sorting.Filter([item], Planned())
        == (if Planned()(item) then [item] else []) + Sorting.Filter([], Planned());
    Folds.SumAppend(Sorting.Filter(items, Planned()), Sorting.Filter([item], Planned()), EstimateOf);
    assert Folds.Sum([item], EstimateOf) == EstimateOf(item) + Folds.Sum([], EstimateOf);
  }

  // ---------------------------------------------------------------------------
  // Streaks
  // ---------------------------------------------------------------------------

  /** getCompletedDays: the days of the completed items. */
  function CompletedDays(items: seq<StatItem>): (days: set<int>)
    ensures forall d :: d in days <==> exists i :: 0 <= i < |items| && Completed(items[i]) && items[i].day == d
  {
    set i | 0 <= i < |items| && Completed(items[i]) :: items[i].day
  }

  /** Every day from `first` to `last` is a completed day. */
  ghost predicate CompletedRun(days: set<int>, first: int, last: int) {
    forall d :: first <= d <= last ==> d in days
  }

  /** The smallest element of a non-empty list of days. */
  function Lowest(s: seq<int>): (m: int)
    requires s != []
    ensures m in s && forall i :: 0 <= i < |s| ==> m <= s[i]
  {
    if |s| == 1 then s[0]
    else
      var m := Lowest(s[1..]);
      assert forall i :: 1 <= i < |s| ==> s[i] == s[1..][i - 1];
      if s[0] < m then s[0] else m
  }

  /**
   * getStreakAtDate: the number of consecutive completed days ending at
   * `endDay`. All of them are completed days and the day before the
   * streak is not.
   */
  method StreakAtDate(items: seq<StatItem>, endDay: int) returns (streak: nat)
    ensures CompletedRun(CompletedDays(items), endDay - streak + 1, endDay)
    ensures endDay - streak !in CompletedDays(items)
  {
    var days := CompletedDays(items);
    ghost var listed := CompletedDayList(items);
    ghost var floor := if listed == [] then endDay else Lowest(listed);
    streak := 0;
    var d := endDay;
    while d in days
      invariant d == endDay - streak
      invariant CompletedRun(days, d + 1, endDay)
      decreases d - floor
    {
      streak := streak + 1;
      d := d - 1;
    }
  }

  /** Strictly increasing: sorted with no repeats. */
  predicate Increasing(s: seq<int>) {
    forall i, j :: 0 <= i < j < |s| ==> s[i] < s[j]
  }

  /** `x` put into its place in an increasing list, unless it is already there. */
  function InsertDay(x: int, s: seq<int>): (r: seq<int>)
    requires Increasing(s)
    ensures Increasing(r)
    ensures forall y :: y in r <==> y in s || y == x
  {
    if s == [] then [x]
    else if x < s[0] then [x] + s
    else if x == s[0] then s
    else
      var rest := InsertDay(x, s[1..]);
      InsertDayBehindHead(x, s, rest);
      [s[0]] + rest
  }

  /** Putting the first day in front of `x` inserted into the later days keeps the list increasing. */
  lemma InsertDayBehindHead(x: int, s: seq<int>, rest: seq<int>)
    requires Increasing(s) && s != [] && s[0] < x
    requires Increasing(rest)
    requires forall y :: y in rest <==> y in s[1..] || y == x
    ensures Increasing([s[0]] + rest)
    ensures forall y :: y in [s[0]] + rest <==> y in s || y == x
  {
    assert s == [s[0]] + s[1..];
    forall k | 0 <= k < |rest| ensures s[0] < rest[k] {
      assert rest[k] in rest;
      if rest[k] != x {
        var j :| 0 <= j < |s[1..]| && s[1..][j] == rest[k];
        assert s[j + 1] == rest[k];
      }
    }
    var r := [s[0]] + rest;
    forall i, j | 0 <= i < j < |r| ensures r[i] < r[j] {
      assert r[j] == rest[j - 1];
      if i > 0 {
        assert r[i] == rest[i - 1];
      }
    }
  }

  /** `Array.from(days).sort()` for a set of days: the days in increasing order. */
  function SortedDays(s: seq<int>): (r: seq<int>)
    ensures Increasing(r)
    ensures forall y :: y in r <==> y in s
  {
    if s == [] then [] else InsertDay(s[|s| - 1], SortedDays(s[..|s| - 1]))
  }

  /** The days of the completed items, in order of the list. */
  function CompletedDayList(items: seq<StatItem>): (r: seq<int>)
    ensures forall d :: d in r <==> d in CompletedDays(items)
  {
    var kept := Sorting.Filter(items, CompletedFilter());
    var r := seq(|kept|, i requires 0 <= i < |kept| => kept[i].day);
    assert forall d :: d in r ==> d in CompletedDays(items) by {
      forall d | d in r ensures d in CompletedDays(items) {
        var i :| 0 <= i < |r| && r[i] == d;
        assert kept[i] in items;
      }
    }
    assert forall d :: d in CompletedDays(items) ==> d in r by {
      forall d | d in CompletedDays(items) ensures d in r {
        var i :| 0 <= i < |items| && Completed(items[i]) && items[i].day == d;
        assert CompletedFilter()(items[i]);
        assert items[i] in kept;
        var j :| 0 <= j < |kept| && kept[j] == items[i];
        assert r[j] == d;
      }
    }
    r
  }

  /** The set of the elements of a list. */
  ghost function Elements(s: seq<int>): (r: set<int>)
    ensures forall x :: x in r <==> x in s
  {
    set x | x in s
  }

  /** An increasing list has as many elements as the set of its elements. */
  lemma {:induction false} IncreasingCount(s: seq<int>)
    requires Increasing(s)
    ensures |set x | x in s| == |s|
  {
    if s != [] {
      IncreasingCount(s[1..]);
      var rest := set x | x in s[1..];
      assert (set x | x in s) == {s[0]} + rest;
      assert s[0] !in rest;
    }
  }

  /** The length of the run of consecutive days that ends at index `i`. */
  function RunEndingAt(days: seq<int>, i: nat): (n: nat)
    requires i < |days|
    ensures 1 <= n <= i + 1
  {
    if i == 0 || days[i] - days[i - 1] != 1 then 1 else RunEndingAt(days, i - 1) + 1
  }

  /** The run ending at index `i` is made of consecutive days: `days[i - k] == days[i] - k`. */
  lemma {:induction false} RunIsConsecutive(days: seq<int>, i: nat, k: nat)
    requires i < |days| && k < RunEndingAt(days, i)
    ensures k <= i && days[i - k] == days[i] - k
  {
    if k > 0 {
      RunIsConsecutive(days, i - 1, k - 1);
    }
  }

  /**
   * In an increasing list holding every day from `first` to `days[i]`,
   * the run ending at `i` has at least `days[i] - first + 1` days.
   */
  lemma {:induction false} RunCoversDays(days: seq<int>, i: nat, first: int)
    requires Increasing(days) && i < |days| && first <= days[i]
    requires CompletedRun(Elements(days), first, days[i])
    ensures days[i] - first + 1 <= RunEndingAt(days, i)
    decreases days[i] - first
  {
    if first < days[i] {
      assert days[i] - 1 in Elements(days);
      var j :| 0 <= j < |days| && days[j] == days[i] - 1;
      assert j < i;
      RunCoversDays(days, i - 1, first);
    }
  }

  /** The run that ends at index `e` is a run of completed days. */
  lemma RunIsCompleted(days: seq<int>, e: nat)
    requires e < |days|
    ensures CompletedRun(Elements(days), days[e] - RunEndingAt(days, e) + 1, days[e])
  {
    forall d | days[e] - RunEndingAt(days, e) + 1 <= d <= days[e]
      ensures d in Elements(days)
    {
      RunIsConsecutive(days, e, days[e] - d);
    }
  }

  /** When no run in the list is longer than `best`, no run of its days is. */
  lemma NoLongerRun(days: seq<int>, best: nat)
    requires Increasing(days)
    requires forall j :: 0 <= j < |days| ==> RunEndingAt(days, j) <= best
    ensures forall first, last :: first <= last && CompletedRun(Elements(days), first, last)
              ==> last - first + 1 <= best
  {
    forall first, last | first <= last && CompletedRun(Elements(days), first, last)
      ensures last - first + 1 <= best
    {
      assert last in Elements(days);
      var i :| 0 <= i < |days| && days[i] == last;
      RunCoversDays(days, i, first);
    }
  }

  /**
   * getBestStreak: 0 when nothing was completed; otherwise the length of
   * the longest run of consecutive completed days, which is at least 1
   * and at most the number of completed days: there is a run that long,
   * and every run of completed days is at most that long.
   */
  method BestStreak(items: seq<StatItem>) returns (best: nat)
    ensures best == 0 <==> CompletedDays(items) == {}
    ensures best <= |CompletedDays(items)|
    ensures best > 0 ==> exists first, last :: last - first + 1 == best && CompletedRun(CompletedDays(items), first, last)
    ensures forall first, last :: first <= last && CompletedRun(CompletedDays(items), first, last)
              ==> last - first + 1 <= best
  {
    var days := SortedDays(CompletedDayList(items));
    assert CompletedDays(items) == Elements(days);
    IncreasingCount(days);
    ghost var bestEnd;
    best, bestEnd := LongestRun(days);
    NoLongerRun(days, best);
    if best > 0 {
      RunIsCompleted(days, bestEnd);
      ghost var last := days[bestEnd];
      assert last - (last - best + 1) + 1 == best;
    }
  }

  /**
   * The loop of getBestStreak over the sorted days: the longest run of
   * consecutive days, which ends at index `bestEnd`.
   */
  method LongestRun(days: seq<int>) returns (best: nat, ghost bestEnd: nat)
    ensures best == 0 <==> days == []
    ensures best <= |days|
    ensures days != [] ==> bestEnd < |days| && best == RunEndingAt(days, bestEnd)
    ensures forall j :: 0 <= j < |days| ==> RunEndingAt(days, j) <= best
  {
    bestEnd := 0;
    if |days| == 0 {
      return 0, 0;
    }
    best := 1;
    var current := 1;
    for i := 1 to |days|
      invariant current == RunEndingAt(days, i - 1)
      invariant 1 <= best <= i && bestEnd < i && best == RunEndingAt(days, bestEnd)
      invariant forall j :: 0 <= j < i ==> RunEndingAt(days, j) <= best
    {
      if days[i] - days[i - 1] == 1 {
        current := current + 1;
        if current > best {
          best, bestEnd := current, i;
        }
      } else {
        current := 1;
      }
    }
  }

  // ---------------------------------------------------------------------------
  // Best XP and average quality
  // ---------------------------------------------------------------------------

  /**
   * getBestXP: `Math.max(0, ...xp)`: at least 0 and every item's XP, and
   * either 0 or the XP of some item.
   */
  function BestXp(items: seq<StatItem>): (best: int)
    ensures best >= 0
    ensures forall i :: 0 <= i < |items| ==> XpOf(items[i]) <= best
    ensures best == 0 || exists i :: 0 <= i < |items| && XpOf(items[i]) == best
  {
    if items == [] then 0
    else
      var rest := BestXp(items[1..]);
      assert forall i :: 1 <= i < |items| ==> items[i] == items[1..][i - 1];
      if XpOf(items[0]) > rest then XpOf(items[0]) else rest
  }

  /** `{ A: 4, B: 3, C: 2, D: 1 }[task_quality]`, undefined for any other value. */
  function QualityScore(q: Option<string>): (score: Option<int>)
    ensures score.Some? <==> q in {Some("A"), Some("B"), Some("C"), Some("D")}
    ensures score.Some? ==> 1 <= score.value <= 4
  {
    if q == Some("A") then Some(4)
    else if q == Some("B") then Some(3)
    else if q == Some("C") then Some(2)
    else if q == Some("D") then Some(1)
    else None
  }

  function Graded(): StatItem -> bool {
    (item: StatItem) => QualityScore(item.taskQuality).Some?
  }

  function ScoreOf(item: StatItem): int {
    QualityScore(item.taskQuality).GetOr(0)
  }

  lemma {:induction false} GradedSumBounds(graded: seq<StatItem>)
    requires forall i :: 0 <= i < |graded| ==> Graded()(graded[i])
    ensures |graded| <= Folds.Sum(graded, ScoreOf) <= 4 * |graded|
  {
    if graded != [] {
      GradedSumBounds(graded[1..]);
    }
  }

  /** `q * k` stays on the side of `c * k` that `q` is on `c`, for a count `k >= 1`. */
  lemma {:induction false} ScaleCompare(q: real, c: real, k: nat)
    requires k >= 1
    ensures q < c ==> q * (k as real) < c * (k as real)
    ensures q > c ==> q * (k as real) > c * (k as real)
  {
    if k > 1 {
      ScaleCompare(q, c, k - 1);
      assert q * (k as real) == q * ((k - 1) as real) + q;
      assert c * (k as real) == c * ((k - 1) as real) + c;
    }
  }

  /** A total between `k` and `4k` over `k >= 1` grades gives a mean between 1 and 4. */
  lemma MeanBounds(total: real, k: nat)
    requires k >= 1 && k as real <= total <= 4.0 * (k as real)
    ensures 1.0 <= total / (k as real) <= 4.0
  {
    var q := total / (k as real);
    assert q * (k as real) == total;
    ScaleCompare(q, 1.0, k);
    ScaleCompare(q, 4.0, k);
  }

  /**
   * getAvgTaskQuality: the mean of the A..D scores 4..1 over the items
   * that have one of those grades, other grades ignored; 0 when there is
   * none. The mean of at least one grade lies between 1 and 4.
   */
  function AvgTaskQuality(items: seq<StatItem>): (avg: real)
    ensures (forall i :: 0 <= i < |items| ==> !Graded()(items[i])) <==> avg == 0.0
    ensures avg != 0.0 ==> 1.0 <= avg <= 4.0
    ensures var graded := Sorting.Filter(items, Graded());
            graded != [] ==> avg == Folds.Sum(graded, ScoreOf) as real / |graded| as real
  {
    var graded := Sorting.Filter(items, Graded());
    assert graded != [] ==> Graded()(graded[0]) && graded[0] in items;
    GradedMean(graded)
  }

  /** The mean score of items that all carry one of the grades A..D. */
  function GradedMean(graded: seq<StatItem>): (m: real)
    requires forall i :: 0 <= i < |graded| ==> Graded()(graded[i])
    ensures graded == [] <==> m == 0.0
    ensures graded != [] ==> 1.0 <= m <= 4.0
    ensures graded != [] ==> m == Folds.Sum(graded, ScoreOf) as real / |graded| as real
  {
    if graded == [] then 0.0
    else
      var total := Folds.Sum(graded, ScoreOf) as real;
      GradedSumBounds(graded);
      MeanBounds(total, |graded|);
      total / |graded| as real
  }

  /** An item without one of the grades A..D leaves getAvgTaskQuality unchanged. */
  lemma UngradedKeepsAverage(items: seq<StatItem>, item: StatItem)
    requires !Graded()(item)
    ensures AvgTaskQuality(items + [item]) == AvgTaskQuality(items)
  {
    Folds.FilterAppend(items, [item], Graded());
    assert Sorting.Filter([item], Graded()) == [] + Sorting.Filter([], Graded());
    assert Sorting.Filter(items + [item], Graded()) == Sorting.Filter(items, Graded());
  }
}
