/**
 * The modular day scheduler (schedule/index.js): the same three phases
 * on the 15-minute, 96-block grid, the placed tasks in order of position
 * with their position attached, the unscheduled tasks, the merge of
 * placed tasks with block gaps (mergeSchedule) and canScheduleTask.
 */
module ModularSchedule {
  import opened Wrappers
  import opened Blocks
  import opened DayTasks
  import opened Layers
  import ChronoMerge

  /** A placed task with its `position` field set. */
  datatype PositionedTask = PositionedTask(task: Task, position: int)

  /** A free run of blocks as findGaps reports it. */
  datatype BlockGap = BlockGap(startBlock: int, endBlock: int, minutes: int)

  /**
   * What a run returns: the placed tasks in order of position, the tasks
   * that could not be placed, the errors and the task positions.
   */
  datatype Result = Result(
    scheduled: seq<PositionedTask>,
    unscheduled: seq<Task>,
    errors: seq<ScheduleError>,
    positions: map<Id, Placement>)

  /** The first block the run may use: the block of the start time, or block 1 without one. */
  function StartBlock(startTime: Option<int>): (b: int)
    ensures startTime.None? ==> b == 1
    ensures startTime.Some? ==>
              BlockToMinutes(b, QuarterHourGrid) <= startTime.value < BlockToMinutes(b, QuarterHourGrid) + 15
  {
    if startTime.Some? then
      BlockRoundsDown(startTime.value, QuarterHourGrid);
      MinutesToBlock(startTime.value, QuarterHourGrid)
    else 1
  }

  /**
   * The three phases as scheduleTasks runs them on the 15-minute grid:
   * from the start block, and on the current day (a positive start time)
   * no approximate task before it.
   */
  function DayRun(tasks: seq<Task>, startTime: Option<int>): Snapshot {
    Run(tasks, QuarterHourGrid, StartBlock(startTime), startTime.Some? && startTime.value > 0)
  }

  /** The tasks of a list of placed tasks. */
  function TasksOf(s: seq<PositionedTask>): (r: seq<Task>)
    ensures |r| == |s| && forall i :: 0 <= i < |s| ==> r[i] == s[i].task
  {
    seq(|s|, i requires 0 <= i < |s| => s[i].task)
  }

  /** `.map(task => ({ ...task, position: taskPositions.get(task.id).position }))` */
  function WithPositions(placed: seq<Task>, positions: map<Id, Placement>): (r: seq<PositionedTask>)
    requires forall i :: 0 <= i < |placed| ==> placed[i].id in positions
    ensures |r| == |placed|
    ensures forall i :: 0 <= i < |r| ==> r[i] == PositionedTask(placed[i], positions[placed[i].id].position)
  {
    seq(|placed|, i requires 0 <= i < |placed| => PositionedTask(placed[i], positions[placed[i].id].position))
  }

  /**
   * The result of a run that placed the tasks in `positions` and reported
   * `errors`: the scheduled and the unscheduled tasks together are the
   * input; a task is scheduled exactly when its id has a position, and
   * then carries that position; the scheduled tasks are in order of
   * position; every unscheduled task has an error naming it.
   */
  function Collect(tasks: seq<Task>, positions: map<Id, Placement>, errors: seq<ScheduleError>): (result: Result)
    requires forall t :: t in tasks ==> Settled(positions, errors, t)
    ensures result.positions == positions && result.errors == errors
    ensures multiset(TasksOf(result.scheduled)) + multiset(result.unscheduled) == multiset(tasks)
    ensures forall t :: t in tasks ==>
              if t.id in result.positions then t in TasksOf(result.scheduled) else t in result.unscheduled
    ensures forall i :: 0 <= i < |result.scheduled| ==>
              && result.scheduled[i].task.id in result.positions
              && result.scheduled[i].position == result.positions[result.scheduled[i].task.id].position
    ensures forall i, j :: 0 <= i < j < |result.scheduled| ==>
              result.scheduled[i].position <= result.scheduled[j].position
    ensures forall t :: t in result.unscheduled ==>
              t.id !in result.positions && exists e :: e in result.errors && e.description == t.description
  {
    var assembled := Assemble(tasks, positions);
    var scheduled := WithPositions(assembled.0, positions);
    assert TasksOf(scheduled) == assembled.0;
    UnscheduledNamed(tasks, assembled.1, positions, errors);
    Result(scheduled, assembled.1, errors, positions)
  }

  /**
   * scheduleTasks. An empty list comes back with no errors. Otherwise the
   * positions and errors are those of the three phases from the start
   * block, and the result is collected from them as `Collect` states;
   * only input ids get positions and no two placed windows overlap.
   */
  method ScheduleTasks(tasks: seq<Task>, startTime: Option<int>) returns (result: Result)
    ensures tasks == [] ==> result == Result([], [], [], map[])
    ensures tasks != [] ==>
              result.positions == DayRun(tasks, startTime).positions && result.errors == DayRun(tasks, startTime).errors
    ensures tasks != [] ==> result == Collect(tasks, result.positions, result.errors)
    ensures multiset(TasksOf(result.scheduled)) + multiset(result.unscheduled) == multiset(tasks)
    ensures forall t :: t in tasks ==>
              if t.id in result.positions then t in TasksOf(result.scheduled) else t in result.unscheduled
    ensures forall i :: 0 <= i < |result.scheduled| ==>
              && result.scheduled[i].task.id in result.positions
              && result.scheduled[i].position == result.positions[result.scheduled[i].task.id].position
    ensures forall i, j :: 0 <= i < j < |result.scheduled| ==>
              result.scheduled[i].position <= result.scheduled[j].position
    ensures forall t :: t in result.unscheduled ==>
              t.id !in result.positions && exists e :: e in result.errors && e.description == t.description
    ensures result.positions.Keys <= Ids(tasks) && NoOverlap(result.positions, QuarterHourGrid)
  {
    if |tasks| == 0 {
      result := Result([], [], [], map[]);
      return;
    }
    var startBlock := StartBlock(startTime);
    var isToday := startTime.Some? && startTime.value > 0;
    var positions, errors := RunPhases(tasks, QuarterHourGrid, startBlock, isToday);
    result := Collect(tasks, positions, errors);
  }

  // ---------------------------------------------------------------------------
  // mergeSchedule
  // ---------------------------------------------------------------------------

  /** The key gaps are merged by: their first block. */
  function GapBlock(): BlockGap -> int {
    (gap: BlockGap) => gap.startBlock
  }

  /** The key tasks are merged by: their position. */
  function TaskBlock(): PositionedTask -> int {
    (t: PositionedTask) => t.position
  }

  /**
   * mergeSchedule: the two-way merge `ChronoMerge.Merged`, which at every
   * step takes the next gap exactly when it starts at an earlier block than
   * the next task. So every task and every gap appears once, each list in
   * its own order; the first element is the first gap iff it starts
   * earlier; and two lists in block order give a list in block order.
   */
  method MergeSchedule(scheduled: seq<PositionedTask>, gaps: seq<BlockGap>)
    returns (merged: seq<ChronoMerge.Either<BlockGap, PositionedTask>>)
    ensures merged == ChronoMerge.Merged(scheduled, gaps, GapBlock(), TaskBlock())
    ensures |merged| == |scheduled| + |gaps|
    ensures ChronoMerge.Tasks(merged) == scheduled && ChronoMerge.Gaps(merged) == gaps
    ensures scheduled != [] && gaps != [] ==>
              (merged[0] == ChronoMerge.Gap(gaps[0]) <==> gaps[0].startBlock < scheduled[0].position)
    ensures ChronoMerge.Ascending(scheduled, TaskBlock()) && ChronoMerge.Ascending(gaps, GapBlock()) ==>
              ChronoMerge.MergedAscending(merged, GapBlock(), TaskBlock())
  {
    merged := ChronoMerge.Merge(scheduled, gaps, GapBlock(), TaskBlock());
    ChronoMerge.MergeKeepsBoth(scheduled, gaps, GapBlock(), TaskBlock());
    if scheduled != [] && gaps != [] {
      ChronoMerge.GapFirstRule(scheduled, gaps, GapBlock(), TaskBlock());
    }
    if ChronoMerge.Ascending(scheduled, TaskBlock()) && ChronoMerge.Ascending(gaps, GapBlock()) {
      ChronoMerge.MergeAscending(scheduled, gaps, GapBlock(), TaskBlock());
    }
  }

  // ---------------------------------------------------------------------------
  // canScheduleTask
  // ---------------------------------------------------------------------------

  /** `scheduledTasks.find(t => t.id === id)`. */
  function FindScheduled(scheduled: seq<PositionedTask>, id: Id): (r: Option<PositionedTask>)
    ensures r.Some? <==> exists i :: 0 <= i < |scheduled| && scheduled[i].task.id == id
    ensures r.Some? ==> exists i :: && 0 <= i < |scheduled| && scheduled[i] == r.value && r.value.task.id == id
                                    && forall k :: 0 <= k < i ==> scheduled[k].task.id != id
  {
    if scheduled == [] then None
    else if scheduled[0].task.id == id then Some(scheduled[0])
    else
      var r := FindScheduled(scheduled[1..], id);
      assert forall i :: 1 <= i < |scheduled| ==> scheduled[i] == scheduled[1..][i - 1];
      r
  }

  /**
   * canScheduleTask: runs the scheduler on the current tasks plus the new
   * one and answers whether the new task is among the scheduled ones,
   * which is exactly when that run gives the new task's id a position.
   */
  method CanScheduleTask(newTask: Task, allTasks: seq<Task>, startTime: Option<int>) returns (ok: bool)
    ensures ok <==> newTask.id in DayRun(allTasks + [newTask], startTime).positions
  {
    var tasks := allTasks + [newTask];
    var result := ScheduleTasks(tasks, startTime);
    var found := FindScheduled(result.scheduled, newTask.id);
    ok := found.Some?;
    FoundIffPlaced(result, tasks, newTask);
  }

  /** For an input task, `find` over the scheduled tasks succeeds exactly when its id has a position. */
  lemma FoundIffPlaced(result: Result, tasks: seq<Task>, t: Task)
    requires t in tasks
    requires forall u :: u in tasks ==>
               if u.id in result.positions then u in TasksOf(result.scheduled) else u in result.unscheduled
    requires forall i :: 0 <= i < |result.scheduled| ==> result.scheduled[i].task.id in result.positions
    ensures FindScheduled(result.scheduled, t.id).Some? <==> t.id in result.positions
  {
    if t.id in result.positions {
      var i :| 0 <= i < |TasksOf(result.scheduled)| && TasksOf(result.scheduled)[i] == t;
      assert result.scheduled[i].task.id == t.id;
    }
  }
}
