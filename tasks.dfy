/**
 * The plan items the day scheduler works on, the parsing of their
 * "HH:MM" fields and the order in which the approximate and unassigned
 * phases take them (sortTasks).
 */
module DayTasks {
  import opened Wrappers
  import opened Blocks
  import Sorting

  /** A task quality letter. */
  datatype Quality = A | B | C | D

  /** An hour and a minute as read from an "HH:MM" field. */
  datatype Clock = Clock(hour: int, minute: int)

  /**
   * A plan item as the scheduler sees it. `plannedTime` and
   * `approximatePeriod` are the raw strings, empty when absent (both are
   * falsy then); `approximateStart` and `approximateEnd` are the parsed
   * time-block bounds, `None` when the field is missing or empty.
   */
  datatype Task = Task(
    id: Id,
    description: string,
    priority: Option<int>,
    quality: Option<Quality>,
    estimated: Option<int>,
    plannedTime: string,
    approximatePeriod: string,
    approximateStart: Option<Clock>,
    approximateEnd: Option<Clock>)

  /** The task has a planned time: the fixed phase takes it. */
  predicate IsFixed(t: Task) {
    t.plannedTime != ""
  }

  /** The task has an approximate period: the approximate phase takes it. */
  predicate IsApproximate(t: Task) {
    t.approximatePeriod != ""
  }

  /** The task has neither: the unassigned phase takes it. */
  predicate IsUnassigned(t: Task) {
    !IsFixed(t) && !IsApproximate(t)
  }

  // ---------------------------------------------------------------------------
  // The pattern /(\d{1,2}):(\d{2})/
  // ---------------------------------------------------------------------------

  predicate IsDigit(c: char) {
    '0' <= c <= '9'
  }

  function DigitValue(c: char): (v: int)
    requires IsDigit(c)
    ensures 0 <= v <= 9
  {
    c as int - '0' as int
  }

  /**
   * The match of the pattern that starts exactly at index `i`. The hour
   * part is greedy: two digits are tried before one.
   */
  function MatchAt(s: string, i: nat): (r: Option<Clock>)
    ensures r.Some? ==> 0 <= r.value.hour <= 99 && 0 <= r.value.minute <= 99
  {
    if i + 5 <= |s| && IsDigit(s[i]) && IsDigit(s[i + 1]) && s[i + 2] == ':'
       && IsDigit(s[i + 3]) && IsDigit(s[i + 4])
    then Some(Clock(10 * DigitValue(s[i]) + DigitValue(s[i + 1]),
                    10 * DigitValue(s[i + 3]) + DigitValue(s[i + 4])))
    else if i + 4 <= |s| && IsDigit(s[i]) && s[i + 1] == ':' && IsDigit(s[i + 2]) && IsDigit(s[i + 3])
    then Some(Clock(DigitValue(s[i]), 10 * DigitValue(s[i + 2]) + DigitValue(s[i + 3])))
    else None
  }

  /** The leftmost match at index `i` or later. */
  function MatchFrom(s: string, i: nat): (r: Option<Clock>)
    requires i <= |s|
    ensures r.Some? <==> exists j :: i <= j < |s| && MatchAt(s, j).Some?
    ensures r.Some? ==> exists j :: i <= j < |s| && MatchAt(s, j) == r
                           && forall k :: i <= k < j ==> MatchAt(s, k).None?
    decreases |s| - i
  {
    if i == |s| then None
    else if MatchAt(s, i).Some? then MatchAt(s, i)
    else MatchFrom(s, i + 1)
  }

  /** `plannedTime.match(/(\d{1,2}):(\d{2})/)`, with both groups read as decimal numbers. */
  function MatchClock(s: string): (r: Option<Clock>)
    ensures r.Some? ==> 0 <= r.value.hour <= 99 && 0 <= r.value.minute <= 99
    ensures r.None? <==> forall j :: 0 <= j < |s| ==> MatchAt(s, j).None?
  {
    MatchFrom(s, 0)
  }

  function DigitChar(d: int): (c: char)
    requires 0 <= d <= 9
    ensures IsDigit(c) && DigitValue(c) == d
  {
    ('0' as int + d) as char
  }

  /** A clock written with two digits for the hour and two for the minute. */
  function FormatClock(c: Clock): string
    requires 0 <= c.hour <= 99 && 0 <= c.minute <= 99
  {
    [DigitChar(c.hour / 10), DigitChar(c.hour % 10), ':', DigitChar(c.minute / 10), DigitChar(c.minute % 10)]
  }

  /** A time written as "HH:MM" is read back as the same hour and minute. */
  lemma ClockRoundTrip(c: Clock)
    requires 0 <= c.hour <= 99 && 0 <= c.minute <= 99
    ensures MatchClock(FormatClock(c)) == Some(c)
  {
    var s := FormatClock(c);
    assert MatchAt(s, 0) == Some(c);
  }

  /** A time with a one-digit hour, such as "9:30", is read as well. */
  lemma ShortHourRead()
    ensures MatchClock("9:30") == Some(Clock(9, 30))
  {
    assert MatchAt("9:30", 0) == Some(Clock(9, 30));
  }

  /** The pattern is not anchored: "123:45" is read as 23:45. */
  lemma UnanchoredMatch()
    ensures MatchClock("123:45") == Some(Clock(23, 45))
  {
    assert MatchAt("123:45", 0).None?;
    assert MatchAt("123:45", 1) == Some(Clock(23, 45));
  }

  /** The minutes since midnight of a clock. */
  function ClockMinutes(c: Clock): int {
    c.hour * 60 + c.minute
  }

  // ---------------------------------------------------------------------------
  // sortTasks
  // ---------------------------------------------------------------------------

  /** `priority || fallback`: a missing or zero priority is replaced. */
  function PriorityOr(priority: Option<int>, fallback: int): (p: int)
    ensures priority.Some? && priority.value != 0 ==> p == priority.value
    ensures priority.None? || priority.value == 0 ==> p == fallback
  {
    if priority.Some? && priority.value != 0 then priority.value else fallback
  }

  /** `(task_quality || 'D')` compared alphabetically: A first, a missing quality counts as D. */
  function LetterRank(q: Option<Quality>): (r: int)
    ensures 0 <= r <= 3
    ensures q.None? || q == Some(D) ==> r == 3
  {
    match q
    case Some(A) => 0
    case Some(B) => 1
    case Some(C) => 2
    case _ => 3
  }

  function TaskKey(g: Grid): Task -> Sorting.Key {
    (t: Task) => Sorting.Key(PriorityOr(t.priority, g.defaultPriority), LetterRank(t.quality))
  }

  /** sortTasks: a copy ordered by priority, then quality letter; ties keep their order. */
  function SortTasks(tasks: seq<Task>, g: Grid): (sorted: seq<Task>)
    ensures multiset(sorted) == multiset(tasks)
    ensures forall i, j :: 0 <= i < j < |sorted| ==>
              Sorting.KeyLe(TaskKey(g)(sorted[i]), TaskKey(g)(sorted[j]))
  {
    Sorting.SortBy(tasks, TaskKey(g))
  }

  /** Of two tasks with different effective priorities, the lower number comes first. */
  lemma PriorityDecidesFirst(tasks: seq<Task>, g: Grid, i: int, j: int)
    requires 0 <= i < |SortTasks(tasks, g)| && 0 <= j < |SortTasks(tasks, g)|
    requires PriorityOr(SortTasks(tasks, g)[i].priority, g.defaultPriority)
           < PriorityOr(SortTasks(tasks, g)[j].priority, g.defaultPriority)
    ensures i < j
  {
  }

  /** Tasks with the same priority and quality keep their input order. */
  lemma SortTasksStable(tasks: seq<Task>, g: Grid, k: Sorting.Key)
    ensures Sorting.WithKey(SortTasks(tasks, g), TaskKey(g), k) == Sorting.WithKey(tasks, TaskKey(g), k)
  {
    Sorting.SortByStable(tasks, TaskKey(g), k);
  }
}
