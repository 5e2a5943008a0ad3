/**
 * The day grid and its block allocator.
 *
 * A day is cut into numbered blocks, 1 to `count`. The PlanFact scheduler
 * uses 288 blocks of 5 minutes; the modular scheduler uses 96 blocks of
 * 15 minutes. Both keep a set of occupied blocks and a map from task id
 * to the position and length it was given, and both use the same three
 * helpers: a window availability test, a marking step and a first-fit
 * search. The helpers only ever look at blocks up to `count`: a window
 * that runs past the end of the day is cut there.
 */
module Blocks {
  import opened Wrappers

  type Id = string

  /** `blockMinutes` minutes per block, `count` blocks per day; `defaultPriority` replaces a missing priority when tasks are ordered. */
  datatype Grid = Grid(blockMinutes: int, count: int, defaultPriority: int)

  /** The PlanFact scheduler: 5-minute blocks, 24 * 60 / 5 = 288 of them. */
  const FiveMinuteGrid: Grid := Grid(5, 288, 20)

  /** The modular scheduler: 15-minute blocks, 96 of them. */
  const QuarterHourGrid: Grid := Grid(15, 96, 10)

  ghost predicate WellFormed(g: Grid) {
    g.blockMinutes > 0 && g.count * g.blockMinutes == 24 * 60
  }

  lemma GridsWellFormed()
    ensures WellFormed(FiveMinuteGrid) && WellFormed(QuarterHourGrid)
  {
  }

  /** A task's place in the day: its first block and its length in blocks. */
  datatype Placement = Placement(position: int, length: int)

  /** The blocks a task of `length` blocks starting at `start` covers, cut at block `last`. */
  function Window(start: int, length: int, last: int): (w: set<int>)
    ensures forall i :: i in w <==> start <= i < start + length && i <= last
  {
    Interval(start, if start + length <= last + 1 then start + length else last + 1)
  }

  /** The blocks from `lo` up to, not including, `hi`. */
  function Interval(lo: int, hi: int): (s: set<int>)
    ensures forall i :: i in s <==> lo <= i < hi
    decreases hi - lo
  {
    if hi <= lo then {} else Interval(lo, hi - 1) + {hi - 1}
  }

  ghost function WindowOf(p: Placement, last: int): set<int> {
    Window(p.position, p.length, last)
  }

  // ---------------------------------------------------------------------------
  // Minutes and blocks
  // ---------------------------------------------------------------------------

  /** The first minute of block `block` (blocks are 1-based). */
  function BlockToMinutes(block: int, g: Grid): (minutes: int)
    ensures g.blockMinutes > 0 ==> MinutesToBlock(minutes, g) == block
  {
    (block - 1) * g.blockMinutes
  }

  /** The block holding minute `minutes` (`Math.floor(minutes / size) + 1`). */
  function MinutesToBlock(minutes: int, g: Grid): (block: int)
    requires g.blockMinutes > 0
    ensures (block - 1) * g.blockMinutes <= minutes < block * g.blockMinutes
  {
    minutes / g.blockMinutes + 1
  }

  /** `Math.ceil(a / b)` for a positive divisor. */
  function CeilDiv(a: int, b: int): (q: int)
    requires b > 0
    ensures b * (q - 1) < a <= b * q
  {
    -((-a) / b)
  }

  /**
   * The number of blocks a task needs: its estimate divided by the block
   * size, rounded up. A missing estimate (`null / size` is 0 in JavaScript)
   * needs no block.
   */
  function BlocksNeeded(estimated: Option<int>, g: Grid): (n: int)
    requires g.blockMinutes > 0
    ensures estimated.None? ==> n == 0
    ensures estimated.Some? ==> (n - 1) * g.blockMinutes < estimated.value <= n * g.blockMinutes
  {
    CeilDiv(estimated.GetOr(0), g.blockMinutes)
  }

  /** A block starts at or before the minute that produced it and less than a block earlier. */
  lemma BlockRoundsDown(minutes: int, g: Grid)
    requires g.blockMinutes > 0
    ensures BlockToMinutes(MinutesToBlock(minutes, g), g) <= minutes
    ensures minutes < BlockToMinutes(MinutesToBlock(minutes, g), g) + g.blockMinutes
  {
  }

  /** For a non-negative minute, converting to a block and back drops exactly `minutes % size`. */
  lemma {:induction false} BlockRoundTrip(minutes: int, g: Grid)
    requires g.blockMinutes > 0 && minutes >= 0
    ensures BlockToMinutes(MinutesToBlock(minutes, g), g) == minutes - minutes % g.blockMinutes
  {
    var q, r := minutes / g.blockMinutes, minutes % g.blockMinutes;
    assert minutes == q * g.blockMinutes + r;
    calc {
      BlockToMinutes(MinutesToBlock(minutes, g), g);
      (q + 1 - 1) * g.blockMinutes;
      minutes - r;
    }
  }

  // ---------------------------------------------------------------------------
  // The helpers
  // ---------------------------------------------------------------------------

  /** areBlocksAvailable: no block of the window, up to block `last`, is occupied. */
  method AreBlocksAvailable(startBlock: int, length: int, occupied: set<int>, last: int) returns (free: bool)
    ensures free <==> Window(startBlock, length, last) !! occupied
  {
    var i := startBlock;
    while i < startBlock + length && i <= last
      invariant startBlock <= i
      invariant forall j :: startBlock <= j < i ==> j !in occupied
    {
      if i in occupied {
        assert i in Window(startBlock, length, last);
        return false;
      }
      i := i + 1;
    }
    return true;
  }

  /** A window of `length` blocks starting at `start` is free of `occupied`. */
  ghost predicate FreeAt(start: int, length: int, occupied: set<int>, last: int) {
    Window(start, length, last) !! occupied
  }

  /**
   * `position` is the least start in [start, end - length + 1] whose
   * window is free, or -1 and no start in that range is free.
   */
  ghost predicate FirstFit(position: int, start: int, end: int, length: int, occupied: set<int>, last: int) {
    || (start <= position <= end - length + 1 && FreeAt(position, length, occupied, last)
        && forall j :: start <= j < position ==> !FreeAt(j, length, occupied, last))
    || (position == -1 && forall j :: start <= j <= end - length + 1 ==> !FreeAt(j, length, occupied, last))
  }

  /** The first-fit search as a function: the least free start from `i` on, or -1. */
  function FirstFree(i: int, end: int, length: int, occupied: set<int>, last: int): (position: int)
    ensures FirstFit(position, i, end, length, occupied, last)
    decreases end - length + 1 - i
  {
    if i > end - length + 1 then -1
    else if Window(i, length, last) !! occupied then i
    else FirstFree(i + 1, end, length, occupied, last)
  }

  /**
   * findAvailablePosition: the least start in [start, end - length + 1]
   * whose window is free, or -1 when there is none. (A free window at
   * block -1 itself also yields -1: the caller cannot tell them apart.)
   */
  method FindAvailablePosition(start: int, end: int, length: int, occupied: set<int>, last: int)
    returns (position: int)
    ensures FirstFit(position, start, end, length, occupied, last)
    ensures position == FirstFree(start, end, length, occupied, last)
  {
    var i := start;
    while i <= end - length + 1
      invariant start <= i
      invariant forall j :: start <= j < i ==> !FreeAt(j, length, occupied, last)
      decreases end - length + 1 - i
    {
      var free := AreBlocksAvailable(i, length, occupied, last);
      if free {
        FirstFitUnique(i, FirstFree(start, end, length, occupied, last), start, end, length, occupied, last);
        return i;
      }
      i := i + 1;
    }
    FirstFitUnique(-1, FirstFree(start, end, length, occupied, last), start, end, length, occupied, last);
    return -1;
  }

  /** Starting from block 0 or later, -1 is returned exactly when no window in range is free. */
  lemma NotFoundMeansFull(start: int, end: int, length: int, occupied: set<int>, last: int, position: int)
    requires start >= 0
    requires FirstFit(position, start, end, length, occupied, last)
    ensures position == -1 <==> forall j :: start <= j <= end - length + 1 ==> !FreeAt(j, length, occupied, last)
  {
    if position != -1 {
      assert !(forall j :: start <= j <= end - length + 1 ==> !FreeAt(j, length, occupied, last)) by {
        assert FreeAt(position, length, occupied, last);
      }
    }
  }

  /** The first fit is unique: the search has one answer. */
  lemma FirstFitUnique(p: int, q: int, start: int, end: int, length: int, occupied: set<int>, last: int)
    requires FirstFit(p, start, end, length, occupied, last) && FirstFit(q, start, end, length, occupied, last)
    ensures p == q
  {
  }

  /** A window that starts after the last block is empty, so it is always free. */
  lemma PastTheEndIsFree(start: int, length: int, occupied: set<int>, last: int)
    requires start > last
    ensures Window(start, length, last) == {} && FreeAt(start, length, occupied, last)
  {
  }

  /**
   * An approximate period from 23:00 to 01:00 on the 5-minute grid searches
   * blocks 277 to 301 (the end moved past midnight). When the evening
   * blocks 277 to 288 are taken, the first fit for a 25-minute task is
   * block 289, which is past the end of the day: the task gets a position
   * and occupies no block.
   */
  lemma FullEveningYieldsPositionPastMidnight()
    ensures FirstFit(289, 277, 301, 5, Interval(277, 289), 288)
  {
    forall j | 277 <= j < 289
      ensures !FreeAt(j, 5, Interval(277, 289), 288)
    {
      assert j in Window(j, 5, 288);
    }
    PastTheEndIsFree(289, 5, Interval(277, 289), 288);
  }

  /** The blocks past the end of the day are never looked at. */
  lemma WindowIgnoresLateBlocks(start: int, length: int, occupied: set<int>, last: int, late: set<int>)
    requires forall i :: i in late ==> i > last
    ensures FreeAt(start, length, occupied, last) <==> FreeAt(start, length, occupied + late, last)
  {
  }

  // ---------------------------------------------------------------------------
  // The state of one scheduling run
  // ---------------------------------------------------------------------------

  /**
   * Why a task was not placed. Each reason carries the description of
   * the task it is about.
   */
  datatype ScheduleError =
    | InvalidTimeFormat(description: string)
    | DoesNotFit(description: string)
    | CollidesWith(description: string, others: set<Id>)
    | InvalidTimeBlock(description: string)
    | CannotFitPeriod(description: string, period: string)
    | CannotBeScheduled(description: string)

  /** The placement `p` covers block `i` (without the end-of-day cut). */
  predicate Covers(p: Placement, i: int) {
    p.position <= i < p.position + p.length
  }

  /**
   * getCollidingTasks: the recorded tasks covering an occupied block of
   * the window. The source reports, per such block, the first covering
   * task in insertion order; this is the set they are drawn from.
   */
  function Colliding(occupied: set<int>, positions: map<Id, Placement>, position: int, length: int, last: int): (ids: set<Id>)
    ensures ids <= positions.Keys
    ensures forall id :: id in ids <==>
              id in positions && exists i :: i in Window(position, length, last) && i in occupied && Covers(positions[id], i)
  {
    set id, i | id in positions && i in Window(position, length, last) && i in occupied
                && Covers(positions[id], i) :: id
  }

  /** The state of a run at one moment: occupied blocks, task positions and errors so far. */
  datatype Snapshot = Snapshot(occupied: set<int>, positions: map<Id, Placement>, errors: seq<ScheduleError>)

  /** Every recorded task's window is occupied, and no two recorded windows overlap. */
  ghost predicate Consistent(s: Snapshot, last: int) {
    && (forall id :: id in s.positions ==> WindowOf(s.positions[id], last) <= s.occupied)
    && (forall a, b :: a in s.positions && b in s.positions && a != b ==>
          WindowOf(s.positions[a], last) !! WindowOf(s.positions[b], last))
  }

  /**
   * The mutable state the scheduler threads through its phases: the set
   * of occupied blocks, the task positions and the error list.
   */
  class DayState {
    const grid: Grid
    var occupied: set<int>
    var positions: map<Id, Placement>
    var errors: seq<ScheduleError>

    /** The grid has blocks of positive size and the state is consistent. */
    ghost predicate Valid()
      reads this
    {
      grid.blockMinutes > 0 && Consistent(Current(), grid.count)
    }

    constructor (g: Grid)
      requires g.blockMinutes > 0
      ensures Valid() && grid == g && occupied == {} && positions == map[] && errors == []
    {
      grid := g;
      occupied := {};
      positions := map[];
      errors := [];
    }

    /** markBlocksOccupied: the window joins the occupied blocks and the task's entry is set. */
    method MarkBlocksOccupied(startBlock: int, length: int, taskId: Id)
      modifies this
      ensures occupied == old(occupied) + Window(startBlock, length, grid.count)
      ensures positions == old(positions)[taskId := Placement(startBlock, length)]
      ensures errors == old(errors)
    {
      var i := startBlock;
      while i < startBlock + length && i <= grid.count
        invariant startBlock <= i && (i <= startBlock + length || i == startBlock)
        invariant occupied == old(occupied) + Window(startBlock, i - startBlock, grid.count)
        invariant positions == old(positions) && errors == old(errors)
      {
        assert Window(startBlock, i + 1 - startBlock, grid.count)
            == Window(startBlock, i - startBlock, grid.count) + {i};
        occupied := occupied + {i};
        i := i + 1;
      }
      assert Window(startBlock, i - startBlock, grid.count) == Window(startBlock, length, grid.count);
      positions := positions[taskId := Placement(startBlock, length)];
    }

    /** The current state as a value. */
    function Current(): Snapshot
      reads this
    {
      Snapshot(occupied, positions, errors)
    }

    /** getCollidingTasks on the current state. */
    function CollidingTasks(position: int, length: int): (ids: set<Id>)
      reads this
      ensures ids <= positions.Keys
      ensures forall id :: id in ids ==>
                exists i :: i in Window(position, length, grid.count) && i in occupied && Covers(positions[id], i)
    {
      Colliding(occupied, positions, position, length, grid.count)
    }

    /** Without a collision, the window overlaps no recorded task's window. */
    lemma NoCollisionIsDisjoint(position: int, length: int)
      requires Valid() && CollidingTasks(position, length) == {}
      ensures forall id :: id in positions ==>
                Window(position, length, grid.count) !! WindowOf(positions[id], grid.count)
    {
      forall id | id in positions
        ensures Window(position, length, grid.count) !! WindowOf(positions[id], grid.count)
      {
        assert forall i :: i in Window(position, length, grid.count) && i in occupied && Covers(positions[id], i)
                 ==> id in CollidingTasks(position, length);
      }
    }

    /** A free window has no collision. */
    lemma FreeHasNoCollision(position: int, length: int)
      requires FreeAt(position, length, occupied, grid.count)
      ensures CollidingTasks(position, length) == {}
    {
    }

    /** Recording a placement whose window overlaps no recorded window keeps the state valid. */
    lemma MarkKeepsValid(old_occupied: set<int>, old_positions: map<Id, Placement>,
                         position: int, length: int, taskId: Id)
      requires grid.blockMinutes > 0
      requires forall id :: id in old_positions ==> WindowOf(old_positions[id], grid.count) <= old_occupied
      requires forall a, b :: a in old_positions && b in old_positions && a != b ==>
                 WindowOf(old_positions[a], grid.count) !! WindowOf(old_positions[b], grid.count)
      requires forall id :: id in old_positions ==>
                 Window(position, length, grid.count) !! WindowOf(old_positions[id], grid.count)
      requires occupied == old_occupied + Window(position, length, grid.count)
      requires positions == old_positions[taskId := Placement(position, length)]
      ensures Valid()
    {
    }
  }
}
