/**
 * The PlanFact day scheduler (scheduleTasks): the three placement phases
 * on the 5-minute grid, the placed tasks in order of position, the
 * unscheduled tasks after them, the free periods between placed tasks
 * (calculatePreciseGaps) and the chronological merge of tasks and gaps.
 * canScheduleTask asks whether one more task would be placed.
 */
module PlanFact {
  import opened Wrappers
  import opened Blocks
  import opened DayTasks
  import opened Layers
  import ChronoMerge

  /** Minutes in a day. */
  const DayMinutes: int := 24 * 60

  /** A free period of the day, in minutes since midnight. */
  datatype Gap = Gap(startMinutes: int, endMinutes: int, minutes: int)

  /** `startTimeMinutes || 0`: a missing start time counts as midnight. */
  function StartMinutes(startTime: Option<int>): int {
    startTime.GetOr(0)
  }

  /** A gap from `start` to `end` when that period is not empty. */
  function GapFrom(start: int, end: int): (r: seq<Gap>)
    ensures |r| <= 1
    ensures r != [] <==> start < end
    ensures forall i :: 0 <= i < |r| ==> r[i] == Gap(start, end, end - start)
  {
    if end > start then [Gap(start, end, end - start)] else []
  }

  /** The minute a placed task starts at. */
  function TaskStart(t: Task, positions: map<Id, Placement>): int
    requires t.id in positions
  {
    BlockToMinutes(positions[t.id].position, FiveMinuteGrid)
  }

  /** The minute a placed task ends at: its start plus `estimated_duration || 0`. */
  function TaskEnd(t: Task, positions: map<Id, Placement>): (end: int)
    requires t.id in positions
    ensures t.estimated.GetOr(0) >= 0 ==> TaskStart(t, positions) <= end
  {
    TaskStart(t, positions) + t.estimated.GetOr(0)
  }

  /** The gap between two consecutive tasks, if both are placed and the second starts after the first ends. */
  function PairGap(current: Task, next: Task, positions: map<Id, Placement>): seq<Gap> {
    if current.id in positions && next.id in positions
    then GapFrom(TaskEnd(current, positions), TaskStart(next, positions))
    else []
  }

  /** A gap describes a non-empty period and its length in minutes. */
  ghost predicate GapShaped(gap: Gap) {
    gap.startMinutes < gap.endMinutes && gap.minutes == gap.endMinutes - gap.startMinutes
  }

  /** The gaps between consecutive tasks of `sorted`, pair by pair. */
  function Between(sorted: seq<Task>, positions: map<Id, Placement>): (r: seq<Gap>)
    ensures |r| <= |sorted|
    ensures forall i :: 0 <= i < |r| ==> GapShaped(r[i])
  {
    if |sorted| < 2 then []
    else Between(sorted[..|sorted| - 1], positions) + PairGap(sorted[|sorted| - 2], sorted[|sorted| - 1], positions)
  }

  /**
   * calculatePreciseGaps as a definition: with no task, the rest of the day
   * from the start time; otherwise the period before the first task, the
   * periods between consecutive tasks and the period after the last task,
   * each one only when it is not empty.
   */
  function PreciseGaps(sorted: seq<Task>, positions: map<Id, Placement>, startTime: Option<int>): (r: seq<Gap>)
    ensures forall i :: 0 <= i < |r| ==> GapShaped(r[i])
  {
    var start := StartMinutes(startTime);
    if sorted == [] then GapFrom(start, DayMinutes)
    else
      var first, last := sorted[0], sorted[|sorted| - 1];
      (if first.id in positions then GapFrom(start, TaskStart(first, positions)) else [])
      + Between(sorted, positions)
      + (if last.id in positions then GapFrom(TaskEnd(last, positions), DayMinutes) else [])
  }

  /** calculatePreciseGaps: the gap before the first task, the loop over consecutive pairs, the gap after the last. */
  method CalculatePreciseGaps(sorted: seq<Task>, positions: map<Id, Placement>, startTime: Option<int>)
    returns (gaps: seq<Gap>)
    ensures gaps == PreciseGaps(sorted, positions, startTime)
  {
    var start := StartMinutes(startTime);
    if |sorted| == 0 {
      gaps := GapFrom(start, DayMinutes);
      return;
    }
    gaps := [];
    var first := sorted[0];
    if first.id in positions {
      var firstStart := TaskStart(first, positions);
      if firstStart > start {
        gaps := gaps + [Gap(start, firstStart, firstStart - start)];
      }
    }
    assert gaps == if first.id in positions then GapFrom(start, TaskStart(first, positions)) else [];
    var between := GapsBetween(sorted, positions);
    gaps := gaps + between;
    ghost var middle := gaps;
    var last := sorted[|sorted| - 1];
    if last.id in positions {
      var lastEnd := TaskEnd(last, positions);
      if lastEnd < DayMinutes {
        gaps := gaps + [Gap(lastEnd, DayMinutes, DayMinutes - lastEnd)];
      }
    }
    assert gaps == middle + if last.id in positions then GapFrom(TaskEnd(last, positions), DayMinutes) else [];
  }

  /** The loop of calculatePreciseGaps over consecutive pairs of tasks. */
  method GapsBetween(sorted: seq<Task>, positions: map<Id, Placement>) returns (gaps: seq<Gap>)
    requires |sorted| >= 1
    ensures gaps == Between(sorted, positions)
  {
    gaps := [];
    for i := 0 to |sorted| - 1
      invariant gaps == Between(sorted[..i + 1], positions)
    {
      var current, next := sorted[i], sorted[i + 1];
      assert sorted[..i + 2][..i + 1] == sorted[..i + 1];
      if current.id in positions && next.id in positions {
        var currentEnd := TaskEnd(current, positions);
        var nextStart := TaskStart(next, positions);
        if nextStart > currentEnd {
          gaps := gaps + [Gap(currentEnd, nextStart, nextStart - currentEnd)];
        }
      }
    }
    assert sorted[..|sorted|] == sorted;
  }

  // ---------------------------------------------------------------------------
  // The gaps are in chronological order
  // ---------------------------------------------------------------------------

  /** Every task is placed and the tasks are in order of start time. */
  ghost predicate ByStart(sorted: seq<Task>, positions: map<Id, Placement>) {
    && (forall i :: 0 <= i < |sorted| ==> sorted[i].id in positions)
    && (forall i, j :: 0 <= i < j < |sorted| ==> TaskStart(sorted[i], positions) <= TaskStart(sorted[j], positions))
  }

  /** No task has a negative estimate, so no task ends before it starts. */
  ghost predicate NonNegativeEstimates(tasks: seq<Task>) {
    forall i :: 0 <= i < |tasks| ==> tasks[i].estimated.GetOr(0) >= 0
  }

  /**
   * Between tasks in order of start time, the gaps lie within the span
   * from the first task's start to the last task's start, and each starts
   * no earlier than the one before it.
   */
  lemma {:induction false} BetweenAscending(sorted: seq<Task>, positions: map<Id, Placement>)
    requires |sorted| >= 1 && ByStart(sorted, positions) && NonNegativeEstimates(sorted)
    ensures forall i :: 0 <= i < |Between(sorted, positions)| ==>
              && TaskStart(sorted[0], positions) <= Between(sorted, positions)[i].startMinutes
              && Between(sorted, positions)[i].endMinutes <= TaskStart(sorted[|sorted| - 1], positions)
    ensures forall i, j :: 0 <= i < j < |Between(sorted, positions)| ==>
              Between(sorted, positions)[i].startMinutes <= Between(sorted, positions)[j].startMinutes
  {
    if |sorted| >= 2 {
      var n := |sorted|;
      var init := sorted[..n - 1];
      BetweenAscending(init, positions);
      var b0 := Between(init, positions);
      var pair := PairGap(sorted[n - 2], sorted[n - 1], positions);
      assert Between(sorted, positions) == b0 + pair;
      assert TaskStart(sorted[n - 2], positions) <= TaskEnd(sorted[n - 2], positions);
      forall i | 0 <= i < |b0|
        ensures b0[i].startMinutes < b0[i].endMinutes <= TaskStart(sorted[n - 2], positions)
      {
      }
    }
  }

  /** For tasks in order of start time, calculatePreciseGaps lists its gaps in order of start time. */
  lemma PreciseGapsAscending(sorted: seq<Task>, positions: map<Id, Placement>, startTime: Option<int>)
    requires ByStart(sorted, positions) && NonNegativeEstimates(sorted)
    ensures ChronoMerge.Ascending(PreciseGaps(sorted, positions, startTime), GapStart())
  {
    var gaps := PreciseGaps(sorted, positions, startTime);
    if sorted != [] {
      var n := |sorted|;
      var start := StartMinutes(startTime);
      var head := if sorted[0].id in positions then GapFrom(start, TaskStart(sorted[0], positions)) else [];
      var mid := Between(sorted, positions);
      var tail := if sorted[n - 1].id in positions then GapFrom(TaskEnd(sorted[n - 1], positions), DayMinutes) else [];
      BetweenAscending(sorted, positions);
      assert gaps == head + mid + tail;
      assert TaskStart(sorted[0], positions) <= TaskStart(sorted[n - 1], positions) <= TaskEnd(sorted[n - 1], positions);
      forall i, j | 0 <= i < j < |gaps|
        ensures GapStart()(gaps[i]) <= GapStart()(gaps[j])
      {
        if j >= |head| + |mid| {
          assert gaps[j] == tail[j - |head| - |mid|];
          if i >= |head| {
            assert gaps[i] == mid[i - |head|];
            assert GapShaped(mid[i - |head|]);
          }
        } else if i < |head| {
          assert gaps[j] == mid[j - |head|];
        } else {
          assert gaps[i] == mid[i - |head|] && gaps[j] == mid[j - |head|];
        }
      }
    }
  }

  // ---------------------------------------------------------------------------
  // scheduleTasks
  // ---------------------------------------------------------------------------

  /** The key gaps are merged by: their start minute. */
  function GapStart(): Gap -> int {
    (gap: Gap) => gap.startMinutes
  }

  /** The key placed tasks are merged by: `blockToMinutes(position)`. */
  function StartKey(positions: map<Id, Placement>): Task -> int {
    (t: Task) => if t.id in positions then TaskStart(t, positions) else 0
  }

  /**
   * What a run returns: the merged list of gaps and placed tasks, the
   * tasks that could not be placed (listed after it, marked
   * unscheduled), the errors and the task positions.
   */
  datatype Schedule = Schedule(
    merged: seq<ChronoMerge.Either<Gap, Task>>,
    unscheduled: seq<Task>,
    errors: seq<ScheduleError>,
    positions: map<Id, Placement>)

  /**
   * The three phases as scheduleTasks runs them: from the block of the
   * start time (block 1 without one), and on the current day (a positive
   * start time) no approximate task before that block.
   */
  function DayRun(tasks: seq<Task>, startTime: Option<int>): Snapshot {
    var startBlock := if startTime.Some? then MinutesToBlock(startTime.value, FiveMinuteGrid) else 1;
    Run(tasks, FiveMinuteGrid, startBlock, startTime.Some? && startTime.value > 0)
  }

  /** The result for an empty task list: one gap for the rest of the day, if any of it is left. */
  function EmptyDay(startTime: Option<int>): Schedule {
    Schedule(ChronoMerge.AllGaps(GapFrom(StartMinutes(startTime), DayMinutes)), [], [], map[])
  }

  /**
   * What scheduleTasks returns for a run over `tasks`: the placed and the
   * unscheduled tasks together are the input; a task is placed exactly when
   * its id has a position; every unscheduled task has an error naming it;
   * the placed tasks appear in order of position; the gaps are those
   * calculatePreciseGaps finds between them; and, when no estimate is
   * negative, the merged list is chronological.
   */
  ghost predicate Collected(tasks: seq<Task>, result: Schedule, startTime: Option<int>) {
    && multiset(ChronoMerge.Tasks(result.merged)) + multiset(result.unscheduled) == multiset(tasks)
    && (forall t :: t in tasks ==>
          if t.id in result.positions then t in ChronoMerge.Tasks(result.merged) else t in result.unscheduled)
    && (forall t :: t in ChronoMerge.Tasks(result.merged) ==> t.id in result.positions)
    && (forall t :: t in result.unscheduled ==>
          t.id !in result.positions && exists e :: e in result.errors && e.description == t.description)
    && (var placed := ChronoMerge.Tasks(result.merged);
        && (forall i, j :: 0 <= i < j < |placed| ==>
              result.positions[placed[i].id].position <= result.positions[placed[j].id].position)
        && ChronoMerge.Gaps(result.merged) == PreciseGaps(placed, result.positions, startTime))
    && (NonNegativeEstimates(tasks) ==>
          ChronoMerge.MergedAscending(result.merged, GapStart(), StartKey(result.positions)))
  }

  /** The schedule a run that placed the tasks in `positions` and reported `errors` yields: it is `Collected`. */
  ghost function Collect(tasks: seq<Task>, positions: map<Id, Placement>, errors: seq<ScheduleError>,
                         startTime: Option<int>): (result: Schedule)
    requires forall t :: t in tasks ==> Settled(positions, errors, t)
    ensures result.positions == positions && result.errors == errors
    ensures Collected(tasks, result, startTime)
  {
    var assembled := Assemble(tasks, positions);
    var placed := assembled.0;
    var gaps := PreciseGaps(placed, positions, startTime);
    ChronoMerge.MergeKeepsBoth(placed, gaps, GapStart(), StartKey(positions));
    UnscheduledNamed(tasks, assembled.1, positions, errors);
    var result := Schedule(ChronoMerge.Merged(placed, gaps, GapStart(), StartKey(positions)), assembled.1, errors, positions);
    if NonNegativeEstimates(tasks) then
      Chronological(tasks, placed, positions, startTime);
      result
    else
      result
  }

  /**
   * scheduleTasks. With no task, one gap covers the rest of the day.
   * Otherwise the positions and errors are those of the three phases from
   * the block of the start time, and the result is collected from them
   * as `Collect` states; only input ids get positions and no two placed
   * windows overlap.
   */
  method ScheduleTasks(tasks: seq<Task>, startTime: Option<int>) returns (result: Schedule)
    ensures tasks == [] ==> result == EmptyDay(startTime)
    ensures tasks != [] ==>
              result.positions == DayRun(tasks, startTime).positions && result.errors == DayRun(tasks, startTime).errors
    ensures tasks != [] ==> result == Collect(tasks, result.positions, result.errors, startTime)
    ensures tasks != [] ==> Collected(tasks, result, startTime)
    ensures result.positions.Keys <= Ids(tasks) && NoOverlap(result.positions, FiveMinuteGrid)
  {
    if |tasks| == 0 {
      result := EmptyDay(startTime);
      return;
    }
    result := RunAndCollect(tasks, startTime);
  }

  /** The non-empty case of scheduleTasks: the three phases, then the gaps, the merge and the unscheduled list. */
  method RunAndCollect(tasks: seq<Task>, startTime: Option<int>) returns (result: Schedule)
    ensures result.positions == DayRun(tasks, startTime).positions && result.errors == DayRun(tasks, startTime).errors
    ensures forall t :: t in tasks ==> Settled(result.positions, result.errors, t)
    ensures result == Collect(tasks, result.positions, result.errors, startTime)
    ensures result.positions.Keys <= Ids(tasks) && NoOverlap(result.positions, FiveMinuteGrid)
  {
    var startBlock := if startTime.Some? then MinutesToBlock(startTime.value, FiveMinuteGrid) else 1;
    var isToday := startTime.Some? && startTime.value > 0;
    var positions, errors := RunPhases(tasks, FiveMinuteGrid, startBlock, isToday);
    var placed := Assemble(tasks, positions).0;
    var gaps := CalculatePreciseGaps(placed, positions, startTime);
    var merged := ChronoMerge.Merge(placed, gaps, GapStart(), StartKey(positions));
    result := Schedule(merged, Assemble(tasks, positions).1, errors, positions);
    assert result == Collect(tasks, positions, errors, startTime);
  }

  /** Placed tasks taken from tasks without negative estimates merge with their gaps into a chronological list. */
  lemma Chronological(tasks: seq<Task>, placed: seq<Task>, positions: map<Id, Placement>, startTime: Option<int>)
    requires NonNegativeEstimates(tasks)
    requires multiset(placed) <= multiset(tasks)
    requires forall i :: 0 <= i < |placed| ==> placed[i].id in positions
    requires forall i, j :: 0 <= i < j < |placed| ==> positions[placed[i].id].position <= positions[placed[j].id].position
    ensures ChronoMerge.MergedAscending(
              ChronoMerge.Merged(placed, PreciseGaps(placed, positions, startTime), GapStart(), StartKey(positions)),
              GapStart(), StartKey(positions))
  {
    forall i | 0 <= i < |placed| ensures placed[i].estimated.GetOr(0) >= 0 {
      assert placed[i] in multiset(tasks);
    }
    PreciseGapsAscending(placed, positions, startTime);
    ChronoMerge.MergeAscending(placed, PreciseGaps(placed, positions, startTime), GapStart(), StartKey(positions));
  }

  // ---------------------------------------------------------------------------
  // canScheduleTask
  // ---------------------------------------------------------------------------

  /** An element of the `scheduledTasks` list a run returns. */
  datatype Entry = GapEntry(gap: Gap) | TaskEntry(task: Task, isUnscheduled: bool)

  /** `scheduledTasks`: the merged list, then the unscheduled tasks marked as such. */
  function Entries(s: Schedule): (r: seq<Entry>)
    ensures |r| == |s.merged| + |s.unscheduled|
  {
    seq(|s.merged|, i requires 0 <= i < |s.merged| =>
      match s.merged[i]
      case Gap(gap) => GapEntry(gap)
      case Task(t) => TaskEntry(t, false))
    + seq(|s.unscheduled|, i requires 0 <= i < |s.unscheduled| => TaskEntry(s.unscheduled[i], true))
  }

  /** `scheduledTasks.find(t => t.id === id)`: the first task entry with that id. */
  function FindTask(entries: seq<Entry>, id: Id): (r: Option<Entry>)
    ensures r.Some? <==> exists i :: 0 <= i < |entries| && entries[i].TaskEntry? && entries[i].task.id == id
    ensures r.Some? ==> exists i :: && 0 <= i < |entries| && entries[i] == r.value && r.value.TaskEntry?
                                    && r.value.task.id == id
                                    && forall k :: 0 <= k < i ==> !(entries[k].TaskEntry? && entries[k].task.id == id)
  {
    if entries == [] then None
    else if entries[0].TaskEntry? && entries[0].task.id == id then Some(entries[0])
    else
      var r := FindTask(entries[1..], id);
      assert forall i :: 1 <= i < |entries| ==> entries[i] == entries[1..][i - 1];
      r
  }

  /**
   * In a run's result, the first task entry with an id that occurs in the
   * input is a scheduled one exactly when that id has a position.
   */
  lemma FoundScheduledIffPlaced(s: Schedule, tasks: seq<Task>, t: Task)
    requires t in tasks
    requires forall u :: u in tasks ==>
               if u.id in s.positions then u in ChronoMerge.Tasks(s.merged) else u in s.unscheduled
    requires forall u :: u in ChronoMerge.Tasks(s.merged) ==> u.id in s.positions
    ensures var found := FindTask(Entries(s), t.id);
            found.Some? && !found.value.isUnscheduled <==> t.id in s.positions
  {
    var entries := Entries(s);
    var found := FindTask(entries, t.id);
    var m := |s.merged|;
    forall i | 0 <= i < m && entries[i].TaskEntry?
      ensures entries[i].task in ChronoMerge.Tasks(s.merged) && !entries[i].isUnscheduled
    {
      TaskEntryInTasks(s.merged, i);
    }
    if t.id in s.positions {
      var i := TaskIndex(s.merged, t);
      assert entries[i].TaskEntry? && entries[i].task.id == t.id;
      var j :| && 0 <= j < |entries| && entries[j] == found.value && found.value.TaskEntry? && found.value.task.id == t.id
               && forall k :: 0 <= k < j ==> !(entries[k].TaskEntry? && entries[k].task.id == t.id);
      assert j <= i;
    } else {
      var i :| 0 <= i < |s.unscheduled| && s.unscheduled[i] == t;
      assert entries[m + i] == TaskEntry(t, true);
    }
  }

  /** A task entry of the merged list holds one of its tasks. */
  lemma {:induction false} TaskEntryInTasks(merged: seq<ChronoMerge.Either<Gap, Task>>, i: int)
    requires 0 <= i < |merged| && merged[i].Task?
    ensures merged[i].task in ChronoMerge.Tasks(merged)
  {
    if i > 0 {
      TaskEntryInTasks(merged[1..], i - 1);
    }
  }

  /** A task of the merged list sits at some index of it. */
  lemma {:induction false} TaskIndex(merged: seq<ChronoMerge.Either<Gap, Task>>, t: Task) returns (i: int)
    requires t in ChronoMerge.Tasks(merged)
    ensures 0 <= i < |merged| && merged[i] == ChronoMerge.Task(t)
  {
    if merged[0] == ChronoMerge.Task(t) {
      i := 0;
    } else {
      assert t in ChronoMerge.Tasks(merged[1..]);
      var k := TaskIndex(merged[1..], t);
      i := k + 1;
    }
  }

  /**
   * canScheduleTask: runs the scheduler on the current tasks plus the new
   * one and answers whether the new task's first entry is a scheduled one,
   * which is exactly when that run gives the new task's id a position.
   */
  method CanScheduleTask(newTask: Task, allTasks: seq<Task>, startTime: Option<int>) returns (ok: bool)
    ensures ok <==> newTask.id in DayRun(allTasks + [newTask], startTime).positions
  {
    var tasks := allTasks + [newTask];
    var schedule := ScheduleTasks(tasks, startTime);
    var found := FindTask(Entries(schedule), newTask.id);
    ok := found.Some? && !found.value.isUnscheduled;
    assert newTask in tasks;
    FoundScheduledIffPlaced(schedule, tasks, newTask);
  }
}
