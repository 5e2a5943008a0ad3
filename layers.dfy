/**
 * The three placement phases of a scheduling run, in the order the
 * scheduler runs them: tasks with a planned time at that time, tasks with
 * an approximate period at the first free window inside it, and all other
 * tasks at the first free window of the rest of the day. Each phase
 * records a position for a task or appends one error about it.
 *
 * The PlanFact scheduler runs them inline with the 5-minute grid; the
 * modular scheduler runs the same steps from its layer files with the
 * 15-minute grid. `day.grid` carries the difference.
 */
module Layers {
  import opened Wrappers
  import opened Blocks
  import opened DayTasks
  import Sorting

  /** Where a fixed task asks to go, if its planned time can be read. */
  function FixedRequest(t: Task, g: Grid): (p: Option<Placement>)
    requires g.blockMinutes > 0
    ensures p.Some? <==> MatchClock(t.plannedTime).Some?
    ensures p.Some? ==> p.value.length == BlocksNeeded(t.estimated, g)
  {
    match MatchClock(t.plannedTime)
    case None => None
    case Some(c) => Some(Placement(MinutesToBlock(ClockMinutes(c), g), BlocksNeeded(t.estimated, g)))
  }

  /** The blocks an approximate task may start in: from `start` up to `end`. */
  datatype Range = Range(start: int, end: int)

  /**
   * The search range of an approximate task, if its time block has both
   * bounds. An end at or before the start crosses midnight and moves a
   * day later; on the current day the search starts no earlier than the
   * current block.
   */
  function ApproximateRange(t: Task, g: Grid, startBlock: int, isToday: bool): (r: Option<Range>)
    requires g.blockMinutes > 0
    ensures r.Some? <==> t.approximateStart.Some? && t.approximateEnd.Some?
    ensures r.Some? ==> r.value.start >= MinutesToBlock(ClockMinutes(t.approximateStart.value), g)
    ensures r.Some? && isToday ==> r.value.start >= startBlock
  {
    if t.approximateStart.None? || t.approximateEnd.None? then None
    else
      var blockStart := MinutesToBlock(ClockMinutes(t.approximateStart.value), g);
      var endBlock := MinutesToBlock(ClockMinutes(t.approximateEnd.value), g);
      var end := if endBlock <= blockStart then endBlock + g.count else endBlock;
      var effective := if isToday && startBlock > blockStart then startBlock else blockStart;
      Some(Range(effective, end))
  }

  /** The task was placed or an error names it. */
  ghost predicate Settled(positions: map<Id, Placement>, errors: seq<ScheduleError>, t: Task) {
    t.id in positions || exists e :: e in errors && e.description == t.description
  }

  ghost function Ids(ts: seq<Task>): set<Id> {
    set t | t in ts :: t.id
  }

  // ---------------------------------------------------------------------------
  // A run as a value
  // ---------------------------------------------------------------------------

  /** The phase a task is handled in, with the parameters that phase reads. */
  datatype Phase =
    | FixedPhase
    | ApproximatePhase(startBlock: int, isToday: bool)
    | UnassignedPhase(startBlock: int)

  /** Records task `id` at `p`: its window joins the occupied blocks. */
  function Record(s: Snapshot, id: Id, p: Placement, g: Grid): Snapshot {
    Snapshot(s.occupied + Window(p.position, p.length, g.count), s.positions[id := p], s.errors)
  }

  /** Appends one error and changes nothing else. */
  function Reject(s: Snapshot, e: ScheduleError): Snapshot {
    s.(errors := s.errors + [e])
  }

  /**
   * Handling one task in a phase. A fixed task goes to its planned block
   * unless its time cannot be read, it runs past the end of the day or it
   * meets a recorded task; an approximate task goes to the first free
   * window of its range; any other task to the first free window from the
   * start block. Exactly one of two things happens: the task's entry is
   * set and nothing else but the occupied blocks changes, or one error
   * naming it is appended and nothing else changes.
   */
  function Step(s: Snapshot, t: Task, phase: Phase, g: Grid): (r: Snapshot)
    requires g.blockMinutes > 0
    ensures s.occupied <= r.occupied
    ensures || (&& t.id in r.positions && r.positions == s.positions[t.id := r.positions[t.id]]
                && r.errors == s.errors)
            || (&& r.positions == s.positions && r.occupied == s.occupied
                && |r.errors| == |s.errors| + 1 && r.errors[..|s.errors|] == s.errors
                && r.errors[|s.errors|].description == t.description)
  {
    match phase
    case FixedPhase =>
      (match FixedRequest(t, g)
       case None => Reject(s, InvalidTimeFormat(t.description))
       case Some(p) =>
         if p.position + p.length > g.count + 1 then Reject(s, DoesNotFit(t.description))
         else
           var colliding := Colliding(s.occupied, s.positions, p.position, p.length, g.count);
           if colliding != {} then Reject(s, CollidesWith(t.description, colliding))
           else Record(s, t.id, p, g))
    case ApproximatePhase(startBlock, isToday) =>
      (match ApproximateRange(t, g, startBlock, isToday)
       case None => Reject(s, InvalidTimeBlock(t.description))
       case Some(range) =>
         var length := BlocksNeeded(t.estimated, g);
         var position := FirstFree(range.start, range.end, length, s.occupied, g.count);
         if position == -1 then Reject(s, CannotFitPeriod(t.description, t.approximatePeriod))
         else Record(s, t.id, Placement(position, length), g))
    case UnassignedPhase(startBlock) =>
      var length := BlocksNeeded(t.estimated, g);
      var position := FirstFree(startBlock, g.count, length, s.occupied, g.count);
      if position == -1 then Reject(s, CannotBeScheduled(t.description))
      else Record(s, t.id, Placement(position, length), g)
  }

  /**
   * Handling `tasks` one after the other. Positions are only added or
   * replaced, and only for these tasks; errors are only appended; every
   * task ends up placed or named by an error.
   */
  function Fold(s: Snapshot, tasks: seq<Task>, phase: Phase, g: Grid): (r: Snapshot)
    requires g.blockMinutes > 0
    ensures s.positions.Keys <= r.positions.Keys <= s.positions.Keys + Ids(tasks)
    ensures s.errors <= r.errors
    ensures forall t :: t in tasks ==> Settled(r.positions, r.errors, t)
    decreases |tasks|
  {
    if tasks == [] then s
    else
      var n := |tasks| - 1;
      var before := Fold(s, tasks[..n], phase, g);
      var after := Step(before, tasks[n], phase, g);
      FoldStep(s, tasks, before, after);
      after
  }

  /** Handling one more task is one more step. */
  lemma FoldNext(s: Snapshot, tasks: seq<Task>, k: nat, phase: Phase, g: Grid)
    requires g.blockMinutes > 0 && k < |tasks|
    ensures Fold(s, tasks[..k + 1], phase, g) == Step(Fold(s, tasks[..k], phase, g), tasks[k], phase, g)
  {
    assert tasks[..k + 1][..k] == tasks[..k];
  }

  /** Handling the last task extends what holds after the others to all of them. */
  lemma FoldStep(s: Snapshot, tasks: seq<Task>, before: Snapshot, after: Snapshot)
    requires tasks != []
    requires s.positions.Keys <= before.positions.Keys <= s.positions.Keys + Ids(tasks[..|tasks| - 1])
    requires s.errors <= before.errors
    requires forall t :: t in tasks[..|tasks| - 1] ==> Settled(before.positions, before.errors, t)
    requires var t := tasks[|tasks| - 1];
             || (&& t.id in after.positions && after.positions == before.positions[t.id := after.positions[t.id]]
                 && after.errors == before.errors)
             || (&& after.positions == before.positions
                 && |after.errors| == |before.errors| + 1 && after.errors[..|before.errors|] == before.errors
                 && after.errors[|before.errors|].description == t.description)
    ensures s.positions.Keys <= after.positions.Keys <= s.positions.Keys + Ids(tasks)
    ensures s.errors <= after.errors
    ensures forall t :: t in tasks ==> Settled(after.positions, after.errors, t)
  {
    var n := |tasks| - 1;
    assert tasks == tasks[..n] + [tasks[n]];
    assert before.errors <= after.errors;
    forall t | t in tasks ensures Settled(after.positions, after.errors, t) {
      if t in tasks[..n] {
        SettledKept(before.positions, before.errors, after.positions, after.errors, t);
      } else if tasks[n].id !in after.positions {
        assert after.errors[|before.errors|] in after.errors;
      }
    }
  }

  /** The tasks a phase handles, in the order it handles them. */
  function PhaseTasks(tasks: seq<Task>, phase: Phase, g: Grid): (r: seq<Task>)
    ensures forall t :: t in r <==> t in tasks && match phase
                                                  case FixedPhase => IsFixed(t)
                                                  case ApproximatePhase(_, _) => IsApproximate(t)
                                                  case UnassignedPhase(_) => IsUnassigned(t)
  {
    match phase
    case FixedPhase => Sorting.Filter(tasks, IsFixed)
    case ApproximatePhase(_, _) =>
      var r := SortTasks(Sorting.Filter(tasks, IsApproximate), g);
      SameElements(Sorting.Filter(tasks, IsApproximate), r);
      r
    case UnassignedPhase(_) =>
      var r := SortTasks(Sorting.Filter(tasks, IsUnassigned), g);
      SameElements(Sorting.Filter(tasks, IsUnassigned), r);
      r
  }

  /** The state before any task is handled. */
  const Empty: Snapshot := Snapshot({}, map[], [])

  /**
   * A whole scheduling run on a fresh day: the fixed tasks in input
   * order, then the approximate tasks and then the rest, each by priority
   * and quality. Only input ids get positions, and every input task is
   * placed or named by an error.
   */
  function Run(tasks: seq<Task>, g: Grid, startBlock: int, isToday: bool): (r: Snapshot)
    requires g.blockMinutes > 0
    ensures r.positions.Keys <= Ids(tasks)
    ensures forall t :: t in tasks ==> Settled(r.positions, r.errors, t)
  {
    var fixedDone := Fold(Empty, PhaseTasks(tasks, FixedPhase, g), FixedPhase, g);
    var approximate := ApproximatePhase(startBlock, isToday);
    var approximateDone := Fold(fixedDone, PhaseTasks(tasks, approximate, g), approximate, g);
    var unassigned := UnassignedPhase(startBlock);
    var r := Fold(approximateDone, PhaseTasks(tasks, unassigned, g), unassigned, g);
    RunSettles(tasks, g, startBlock, isToday, fixedDone, approximateDone, r);
    r
  }

  /** What each phase promises about its own tasks adds up to the promise of the whole run. */
  lemma RunSettles(tasks: seq<Task>, g: Grid, startBlock: int, isToday: bool,
                   fixedDone: Snapshot, approximateDone: Snapshot, r: Snapshot)
    requires var fixed := PhaseTasks(tasks, FixedPhase, g);
             && fixedDone.positions.Keys <= Ids(fixed)
             && forall t :: t in fixed ==> Settled(fixedDone.positions, fixedDone.errors, t)
    requires var approximate := PhaseTasks(tasks, ApproximatePhase(startBlock, isToday), g);
             && fixedDone.positions.Keys <= approximateDone.positions.Keys
             && approximateDone.positions.Keys <= fixedDone.positions.Keys + Ids(approximate)
             && fixedDone.errors <= approximateDone.errors
             && forall t :: t in approximate ==> Settled(approximateDone.positions, approximateDone.errors, t)
    requires var unassigned := PhaseTasks(tasks, UnassignedPhase(startBlock), g);
             && approximateDone.positions.Keys <= r.positions.Keys
             && r.positions.Keys <= approximateDone.positions.Keys + Ids(unassigned)
             && approximateDone.errors <= r.errors
             && forall t :: t in unassigned ==> Settled(r.positions, r.errors, t)
    ensures r.positions.Keys <= Ids(tasks)
    ensures forall t :: t in tasks ==> Settled(r.positions, r.errors, t)
  {
    var fixed := PhaseTasks(tasks, FixedPhase, g);
    var approximate := PhaseTasks(tasks, ApproximatePhase(startBlock, isToday), g);
    var unassigned := PhaseTasks(tasks, UnassignedPhase(startBlock), g);
    IdsOfMembers(fixed, tasks);
    IdsOfMembers(approximate, tasks);
    IdsOfMembers(unassigned, tasks);
    forall t | t in tasks ensures Settled(r.positions, r.errors, t) {
      if IsFixed(t) {
        assert t in fixed;
        SettledKept(fixedDone.positions, fixedDone.errors, approximateDone.positions, approximateDone.errors, t);
        SettledKept(approximateDone.positions, approximateDone.errors, r.positions, r.errors, t);
      } else if IsApproximate(t) {
        assert t in approximate;
        SettledKept(approximateDone.positions, approximateDone.errors, r.positions, r.errors, t);
      } else {
        assert t in unassigned;
      }
    }
  }

  /** The ids of a sequence whose elements all occur in another are ids of that other. */
  lemma IdsOfMembers(a: seq<Task>, b: seq<Task>)
    requires forall t :: t in a ==> t in b
    ensures Ids(a) <= Ids(b)
  {
  }

  /** Recording a window that overlaps no other recorded window keeps the state consistent. */
  lemma RecordKeepsConsistent(s: Snapshot, id: Id, p: Placement, g: Grid)
    requires Consistent(s, g.count)
    requires forall other :: other in s.positions && other != id ==>
               Window(p.position, p.length, g.count) !! WindowOf(s.positions[other], g.count)
    ensures Consistent(Record(s, id, p, g), g.count)
  {
  }

  /** Recording a window free of every occupied block keeps the state consistent. */
  lemma RecordFreeKeepsConsistent(s: Snapshot, id: Id, p: Placement, g: Grid)
    requires Consistent(s, g.count) && FreeAt(p.position, p.length, s.occupied, g.count)
    ensures Consistent(Record(s, id, p, g), g.count)
  {
    forall other | other in s.positions && other != id
      ensures Window(p.position, p.length, g.count) !! WindowOf(s.positions[other], g.count)
    {
      assert WindowOf(s.positions[other], g.count) <= s.occupied;
    }
    RecordKeepsConsistent(s, id, p, g);
  }

  /** A window with no colliding task overlaps no recorded window. */
  lemma NoCollisionKeepsConsistent(s: Snapshot, id: Id, p: Placement, g: Grid)
    requires Consistent(s, g.count)
    requires Colliding(s.occupied, s.positions, p.position, p.length, g.count) == {}
    ensures Consistent(Record(s, id, p, g), g.count)
  {
    var w := Window(p.position, p.length, g.count);
    forall other | other in s.positions && other != id
      ensures w !! WindowOf(s.positions[other], g.count)
    {
      assert forall i :: i in w && i in WindowOf(s.positions[other], g.count) ==>
               i in s.occupied && Covers(s.positions[other], i);
    }
    RecordKeepsConsistent(s, id, p, g);
  }

  /** Handling one task keeps every recorded window occupied and the windows apart. */
  lemma StepKeepsConsistent(s: Snapshot, t: Task, phase: Phase, g: Grid)
    requires g.blockMinutes > 0 && Consistent(s, g.count)
    ensures Consistent(Step(s, t, phase, g), g.count)
  {
    match phase
    case FixedPhase =>
      var request := FixedRequest(t, g);
      if request.Some? && request.value.position + request.value.length <= g.count + 1 {
        var p := request.value;
        if Colliding(s.occupied, s.positions, p.position, p.length, g.count) == {} {
          NoCollisionKeepsConsistent(s, t.id, p, g);
        }
      }
    case ApproximatePhase(startBlock, isToday) =>
      var range := ApproximateRange(t, g, startBlock, isToday);
      if range.Some? {
        var length := BlocksNeeded(t.estimated, g);
        var position := FirstFree(range.value.start, range.value.end, length, s.occupied, g.count);
        if position != -1 {
          RecordFreeKeepsConsistent(s, t.id, Placement(position, length), g);
        }
      }
    case UnassignedPhase(startBlock) =>
      var length := BlocksNeeded(t.estimated, g);
      var position := FirstFree(startBlock, g.count, length, s.occupied, g.count);
      if position != -1 {
        RecordFreeKeepsConsistent(s, t.id, Placement(position, length), g);
      }
  }

  /** A whole phase keeps the state consistent. */
  lemma {:induction false} FoldKeepsConsistent(s: Snapshot, tasks: seq<Task>, phase: Phase, g: Grid)
    requires g.blockMinutes > 0 && Consistent(s, g.count)
    ensures Consistent(Fold(s, tasks, phase, g), g.count)
    decreases |tasks|
  {
    if tasks != [] {
      var n := |tasks| - 1;
      FoldKeepsConsistent(s, tasks[..n], phase, g);
      StepKeepsConsistent(Fold(s, tasks[..n], phase, g), tasks[n], phase, g);
    }
  }

  /**
   * A run never double-books a block: every placed task's window is
   * occupied and no two placed windows overlap.
   */
  lemma RunConsistent(tasks: seq<Task>, g: Grid, startBlock: int, isToday: bool)
    requires g.blockMinutes > 0
    ensures Consistent(Run(tasks, g, startBlock, isToday), g.count)
    ensures NoOverlap(Run(tasks, g, startBlock, isToday).positions, g)
  {
    var fixedDone := Fold(Empty, PhaseTasks(tasks, FixedPhase, g), FixedPhase, g);
    var approximate := ApproximatePhase(startBlock, isToday);
    var approximateDone := Fold(fixedDone, PhaseTasks(tasks, approximate, g), approximate, g);
    var unassigned := UnassignedPhase(startBlock);
    FoldKeepsConsistent(Empty, PhaseTasks(tasks, FixedPhase, g), FixedPhase, g);
    FoldKeepsConsistent(fixedDone, PhaseTasks(tasks, approximate, g), approximate, g);
    FoldKeepsConsistent(approximateDone, PhaseTasks(tasks, unassigned, g), unassigned, g);
  }

  /**
   * One task was handled: its entry may be added or replaced, nothing
   * else is, and when it was not placed exactly one error about it was
   * appended.
   */
  twostate predicate Handled(day: DayState, t: Task)
    reads day
  {
    && old(day.positions).Keys <= day.positions.Keys <= old(day.positions).Keys + {t.id}
    && old(day.errors) <= day.errors
    && (|| t.id in day.positions
        || (|day.errors| == |old(day.errors)| + 1 && day.errors[|old(day.errors)|].description == t.description))
  }

  /**
   * A fixed-time task: rejected when its time cannot be read, when it
   * would run past block `count` (position + length > count + 1), or when
   * its window meets a recorded task; placed at its time otherwise.
   */
  method PlaceFixed(day: DayState, t: Task)
    requires day.Valid()
    modifies day
    ensures day.Valid() && Handled(day, t)
    ensures day.Current() == Step(old(day.Current()), t, FixedPhase, day.grid)
    ensures FixedRequest(t, day.grid).None? ==>
              && day.errors == old(day.errors) + [InvalidTimeFormat(t.description)]
              && day.positions == old(day.positions) && day.occupied == old(day.occupied)
    ensures FixedRequest(t, day.grid).Some? ==>
              var p := FixedRequest(t, day.grid).value;
              if p.position + p.length > day.grid.count + 1 then
                && day.errors == old(day.errors) + [DoesNotFit(t.description)]
                && day.positions == old(day.positions) && day.occupied == old(day.occupied)
              else if old(day.CollidingTasks(p.position, p.length)) != {} then
                && day.errors == old(day.errors) + [CollidesWith(t.description, old(day.CollidingTasks(p.position, p.length)))]
                && day.positions == old(day.positions) && day.occupied == old(day.occupied)
              else
                && day.positions == old(day.positions)[t.id := p]
                && day.occupied == old(day.occupied) + Window(p.position, p.length, day.grid.count)
                && day.errors == old(day.errors)
  {
    var request := FixedRequest(t, day.grid);
    if request.None? {
      day.errors := day.errors + [InvalidTimeFormat(t.description)];
      return;
    }
    var position, length := request.value.position, request.value.length;
    if position + length > day.grid.count + 1 {
      day.errors := day.errors + [DoesNotFit(t.description)];
      return;
    }
    var colliding := day.CollidingTasks(position, length);
    if colliding != {} {
      day.errors := day.errors + [CollidesWith(t.description, colliding)];
      return;
    }
    day.NoCollisionIsDisjoint(position, length);
    ghost var occupied0, positions0 := day.occupied, day.positions;
    day.MarkBlocksOccupied(position, length, t.id);
    day.MarkKeepsValid(occupied0, positions0, position, length, t.id);
  }

  /**
   * An approximate-time task: rejected when its time block lacks a bound
   * or when no window of its range is free; placed at the first free
   * window otherwise. The collision check that follows the search can
   * never fire, because the window found is free.
   */
  method PlaceApproximate(day: DayState, t: Task, startBlock: int, isToday: bool)
    requires day.Valid()
    modifies day
    ensures day.Valid() && Handled(day, t)
    ensures day.Current() == Step(old(day.Current()), t, ApproximatePhase(startBlock, isToday), day.grid)
    ensures ApproximateRange(t, day.grid, startBlock, isToday).None? ==>
              && day.errors == old(day.errors) + [InvalidTimeBlock(t.description)]
              && day.positions == old(day.positions) && day.occupied == old(day.occupied)
    ensures ApproximateRange(t, day.grid, startBlock, isToday).Some? ==>
              var r := ApproximateRange(t, day.grid, startBlock, isToday).value;
              var length := BlocksNeeded(t.estimated, day.grid);
              || (&& FirstFit(-1, r.start, r.end, length, old(day.occupied), day.grid.count)
                  && day.errors == old(day.errors) + [CannotFitPeriod(t.description, t.approximatePeriod)]
                  && day.positions == old(day.positions) && day.occupied == old(day.occupied))
              || (exists position ::
                  && position != -1
                  && FirstFit(position, r.start, r.end, length, old(day.occupied), day.grid.count)
                  && day.positions == old(day.positions)[t.id := Placement(position, length)]
                  && day.occupied == old(day.occupied) + Window(position, length, day.grid.count)
                  && day.errors == old(day.errors))
  {
    var range := ApproximateRange(t, day.grid, startBlock, isToday);
    if range.None? {
      day.errors := day.errors + [InvalidTimeBlock(t.description)];
      return;
    }
    var length := BlocksNeeded(t.estimated, day.grid);
    var position := FindAvailablePosition(range.value.start, range.value.end, length, day.occupied, day.grid.count);
    if position == -1 {
      day.errors := day.errors + [CannotFitPeriod(t.description, t.approximatePeriod)];
      return;
    }
    day.FreeHasNoCollision(position, length);
    if day.CollidingTasks(position, length) != {} {
      assert false;
    }
    PlaceFree(day, position, length, t.id);
  }

  /**
   * A task without time information: rejected when no window from the
   * start block to the end of the day is free; placed at the first free
   * window otherwise.
   */
  method PlaceUnassigned(day: DayState, t: Task, startBlock: int)
    requires day.Valid()
    modifies day
    ensures day.Valid() && Handled(day, t)
    ensures day.Current() == Step(old(day.Current()), t, UnassignedPhase(startBlock), day.grid)
    ensures var length := BlocksNeeded(t.estimated, day.grid);
            || (&& FirstFit(-1, startBlock, day.grid.count, length, old(day.occupied), day.grid.count)
                && day.errors == old(day.errors) + [CannotBeScheduled(t.description)]
                && day.positions == old(day.positions) && day.occupied == old(day.occupied))
            || (exists position ::
                && position != -1
                && FirstFit(position, startBlock, day.grid.count, length, old(day.occupied), day.grid.count)
                && day.positions == old(day.positions)[t.id := Placement(position, length)]
                && day.occupied == old(day.occupied) + Window(position, length, day.grid.count)
                && day.errors == old(day.errors))
  {
    var length := BlocksNeeded(t.estimated, day.grid);
    var position := FindAvailablePosition(startBlock, day.grid.count, length, day.occupied, day.grid.count);
    if position == -1 {
      day.errors := day.errors + [CannotBeScheduled(t.description)];
      return;
    }
    day.FreeHasNoCollision(position, length);
    if day.CollidingTasks(position, length) != {} {
      assert false;
    }
    PlaceFree(day, position, length, t.id);
  }

  /** Records a task at a free window. */
  method PlaceFree(day: DayState, position: int, length: int, taskId: Id)
    requires day.Valid() && FreeAt(position, length, day.occupied, day.grid.count)
    modifies day
    ensures day.Valid()
    ensures day.positions == old(day.positions)[taskId := Placement(position, length)]
    ensures day.occupied == old(day.occupied) + Window(position, length, day.grid.count)
    ensures day.errors == old(day.errors)
  {
    day.FreeHasNoCollision(position, length);
    day.NoCollisionIsDisjoint(position, length);
    ghost var occupied0, positions0 := day.occupied, day.positions;
    day.MarkBlocksOccupied(position, length, taskId);
    day.MarkKeepsValid(occupied0, positions0, position, length, taskId);
  }

  // ---------------------------------------------------------------------------
  // The phases
  // ---------------------------------------------------------------------------

  /** Phase 1: the tasks with a planned time, in input order. */
  method ScheduleFixedTasks(day: DayState, tasks: seq<Task>)
    requires day.Valid()
    modifies day
    ensures day.Valid()
    ensures day.Current() == Fold(old(day.Current()), PhaseTasks(tasks, FixedPhase, day.grid), FixedPhase, day.grid)
  {
    var fixed := Sorting.Filter(tasks, IsFixed);
    ghost var start := day.Current();
    for k := 0 to |fixed|
      invariant day.Valid()
      invariant day.Current() == Fold(start, fixed[..k], FixedPhase, day.grid)
    {
      PlaceFixed(day, fixed[k]);
      FoldNext(start, fixed, k, FixedPhase, day.grid);
    }
    assert fixed[..|fixed|] == fixed;
  }

  /** Phase 2: the tasks with an approximate period, by priority and quality. */
  method ScheduleApproximateTasks(day: DayState, tasks: seq<Task>, startBlock: int, isToday: bool)
    requires day.Valid()
    modifies day
    ensures day.Valid()
    ensures var phase := ApproximatePhase(startBlock, isToday);
            day.Current() == Fold(old(day.Current()), PhaseTasks(tasks, phase, day.grid), phase, day.grid)
  {
    var approximate := SortTasks(Sorting.Filter(tasks, IsApproximate), day.grid);
    ghost var start := day.Current();
    for k := 0 to |approximate|
      invariant day.Valid()
      invariant day.Current() == Fold(start, approximate[..k], ApproximatePhase(startBlock, isToday), day.grid)
    {
      PlaceApproximate(day, approximate[k], startBlock, isToday);
      FoldNext(start, approximate, k, ApproximatePhase(startBlock, isToday), day.grid);
    }
    assert approximate[..|approximate|] == approximate;
  }

  /** Phase 3: the tasks with neither, by priority and quality. */
  method ScheduleUnassignedTasks(day: DayState, tasks: seq<Task>, startBlock: int)
    requires day.Valid()
    modifies day
    ensures day.Valid()
    ensures var phase := UnassignedPhase(startBlock);
            day.Current() == Fold(old(day.Current()), PhaseTasks(tasks, phase, day.grid), phase, day.grid)
  {
    var unassigned := SortTasks(Sorting.Filter(tasks, IsUnassigned), day.grid);
    ghost var start := day.Current();
    for k := 0 to |unassigned|
      invariant day.Valid()
      invariant day.Current() == Fold(start, unassigned[..k], UnassignedPhase(startBlock), day.grid)
    {
      PlaceUnassigned(day, unassigned[k], startBlock);
      FoldNext(start, unassigned, k, UnassignedPhase(startBlock), day.grid);
    }
    assert unassigned[..|unassigned|] == unassigned;
  }

  /** The windows of two different recorded tasks never share a block. */
  ghost predicate NoOverlap(positions: map<Id, Placement>, g: Grid) {
    forall a, b :: a in positions && b in positions && a != b ==>
      WindowOf(positions[a], g.count) !! WindowOf(positions[b], g.count)
  }

  /**
   * The three phases on a fresh day of grid `g`: the result is the run
   * `Run` describes, and no two placed windows overlap.
   */
  method RunPhases(tasks: seq<Task>, g: Grid, startBlock: int, isToday: bool)
    returns (positions: map<Id, Placement>, errors: seq<ScheduleError>)
    requires g.blockMinutes > 0
    ensures positions == Run(tasks, g, startBlock, isToday).positions
    ensures errors == Run(tasks, g, startBlock, isToday).errors
    ensures positions.Keys <= Ids(tasks)
    ensures NoOverlap(positions, g)
    ensures forall t :: t in tasks ==> Settled(positions, errors, t)
  {
    var day := new DayState(g);
    ScheduleFixedTasks(day, tasks);
    ScheduleApproximateTasks(day, tasks, startBlock, isToday);
    ScheduleUnassignedTasks(day, tasks, startBlock);
    positions, errors := day.positions, day.errors;
  }

  /** A reordering has the same elements and the same ids. */
  lemma SameElements(a: seq<Task>, b: seq<Task>)
    requires multiset(a) == multiset(b)
    ensures forall t :: t in a <==> t in b
    ensures Ids(a) == Ids(b)
  {
    forall t ensures t in a <==> t in b {
      assert t in a <==> t in multiset(a);
      assert t in b <==> t in multiset(b);
    }
  }

  /** Settled tasks stay settled while positions and errors only grow. */
  lemma SettledKept(positions0: map<Id, Placement>, errors0: seq<ScheduleError>,
                    positions1: map<Id, Placement>, errors1: seq<ScheduleError>, t: Task)
    requires positions0.Keys <= positions1.Keys && errors0 <= errors1
    requires Settled(positions0, errors0, t)
    ensures Settled(positions1, errors1, t)
  {
    if t.id !in positions1 {
      var e :| e in errors0 && e.description == t.description;
      assert e in errors1;
    }
  }

  // ---------------------------------------------------------------------------
  // Assembling the result
  // ---------------------------------------------------------------------------

  /** The task has a recorded position. */
  function PlacedIn(positions: map<Id, Placement>): Task -> bool {
    (t: Task) => t.id in positions
  }

  /** The task has no recorded position. */
  function NotPlacedIn(positions: map<Id, Placement>): Task -> bool {
    (t: Task) => t.id !in positions
  }

  /** The comparator `positions.get(a.id).position - positions.get(b.id).position`. */
  function PositionKey(positions: map<Id, Placement>): Task -> Sorting.Key {
    (t: Task) => Sorting.Key(if t.id in positions then positions[t.id].position else 0, 0)
  }

  /**
   * The placed tasks in order of position (ties keep input order) and
   * the tasks left out, in input order. Together they are the input,
   * every placed task has a position and no left-out task has one.
   */
  function Assemble(tasks: seq<Task>, positions: map<Id, Placement>): (r: (seq<Task>, seq<Task>))
    ensures multiset(r.0) + multiset(r.1) == multiset(tasks)
    ensures forall i :: 0 <= i < |r.0| ==> r.0[i].id in positions
    ensures forall i :: 0 <= i < |r.1| ==> r.1[i].id !in positions
    ensures forall i, j :: 0 <= i < j < |r.0| ==> positions[r.0[i].id].position <= positions[r.0[j].id].position
    ensures forall t :: t in tasks ==> if t.id in positions then t in r.0 else t in r.1
  {
    var placed := PlacedInOrder(tasks, positions);
    var unplaced := Sorting.Filter(tasks, NotPlacedIn(positions));
    Sorting.FilterPartition(tasks, PlacedIn(positions), NotPlacedIn(positions));
    PlacedMembers(tasks, positions);
    PlacedSorted(tasks, positions);
    UnplacedMembers(tasks, positions);
    (placed, unplaced)
  }

  /** The tasks with a position, stably sorted by it. */
  function PlacedInOrder(tasks: seq<Task>, positions: map<Id, Placement>): seq<Task> {
    Sorting.SortBy(Sorting.Filter(tasks, PlacedIn(positions)), PositionKey(positions))
  }

  /** A task is among the placed ones exactly when it is an input task with a position. */
  lemma PlacedMembers(tasks: seq<Task>, positions: map<Id, Placement>)
    ensures forall t :: t in PlacedInOrder(tasks, positions) <==> t in tasks && t.id in positions
    ensures forall i :: 0 <= i < |PlacedInOrder(tasks, positions)| ==> PlacedInOrder(tasks, positions)[i].id in positions
  {
    var placed := PlacedInOrder(tasks, positions);
    Sorting.SortedFilter(tasks, PlacedIn(positions), PositionKey(positions));
    forall t ensures PlacedIn(positions)(t) == (t.id in positions) {
    }
    forall i | 0 <= i < |placed| ensures placed[i].id in positions {
      assert placed[i] in placed;
    }
  }

  /** The placed tasks ascend by position. */
  lemma PlacedSorted(tasks: seq<Task>, positions: map<Id, Placement>)
    ensures forall i, j :: 0 <= i < j < |PlacedInOrder(tasks, positions)| ==>
              var placed := PlacedInOrder(tasks, positions);
              placed[i].id in positions && placed[j].id in positions &&
              positions[placed[i].id].position <= positions[placed[j].id].position
  {
    var placed := PlacedInOrder(tasks, positions);
    PlacedMembers(tasks, positions);
    forall i, j | 0 <= i < j < |placed|
      ensures positions[placed[i].id].position <= positions[placed[j].id].position
    {
      assert Sorting.KeyLe(PositionKey(positions)(placed[i]), PositionKey(positions)(placed[j]));
    }
  }

  /** The left-out tasks are exactly the input tasks without a position. */
  lemma UnplacedMembers(tasks: seq<Task>, positions: map<Id, Placement>)
    ensures forall i :: 0 <= i < |Sorting.Filter(tasks, NotPlacedIn(positions))| ==>
              Sorting.Filter(tasks, NotPlacedIn(positions))[i].id !in positions
    ensures forall t :: t in tasks && t.id !in positions ==> t in Sorting.Filter(tasks, NotPlacedIn(positions))
  {
    var unplaced := Sorting.Filter(tasks, NotPlacedIn(positions));
    forall i | 0 <= i < |unplaced| ensures unplaced[i].id !in positions {
      assert NotPlacedIn(positions)(unplaced[i]);
    }
    forall t | t in tasks && t.id !in positions ensures t in unplaced {
      assert NotPlacedIn(positions)(t);
    }
  }

  /** The tasks left out of a run, all taken from the input, each have an error naming them. */
  lemma UnscheduledNamed(tasks: seq<Task>, unscheduled: seq<Task>, positions: map<Id, Placement>, errors: seq<ScheduleError>)
    requires forall t :: t in tasks ==> Settled(positions, errors, t)
    requires multiset(unscheduled) <= multiset(tasks)
    requires forall i :: 0 <= i < |unscheduled| ==> unscheduled[i].id !in positions
    ensures forall t :: t in unscheduled ==> exists e :: e in errors && e.description == t.description
  {
    forall t | t in unscheduled
      ensures exists e :: e in errors && e.description == t.description
    {
      assert t in multiset(unscheduled);
      assert t in tasks;
    }
  }
}
