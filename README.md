# EF12 core, modelled in Dafny

EF12 is a personal planner. Every plan item (a task) is estimated, scheduled into the day, completed, graded and turned into experience points (XP). The XP flows into a forest of projects. This project models the core of that system:

- **The XP engine** (`backend/utils/xp.py`):
  - `calculate_xp` takes the actual minutes and multiplies by four factors: quality, time quality, priority and a duration penalty. It adds a flat 40 and rounds down.
  - Levels are the integer square root of XP / 100.
  - `update_project_xp` gives the same XP to a project and every ancestor.
- **The project table** (`backend/api/projects.py`): the active-project listing, and cascading deletion. Deletion removes children before their parent and rolls back everything if any delete fails.
- **The day schedulers**, both built on one block allocator:
  - `PlanFact/utils/scheduler.js` uses 288 blocks of 5 minutes. It places fixed-time tasks, then approximate-period tasks, then unassigned tasks. It computes the free periods (gaps) between placed tasks and merges tasks and gaps into one chronological list.
  - `schedule/index.js` with `placement.js` does the same on 96 blocks of 15 minutes. The 15-minute run shares the placement phases (`fixedLayer.js`, `approximateLayer.js`, `unassignedLayer.js`, `helpers.js`). These are the same code as the 5-minute phases, on a different grid.
- **The small helpers**:
  - project columns and descendants (`projectUtils.js`);
  - the plan order (`planUtils.js`);
  - duration labels, breadcrumbs and day sums (`shared/utils/time.js`);
  - the statistics page's totals, streaks, best XP and average quality (`statistics.js`);
  - badge lookup, counts and level progress (`badgeCalculations.js`).

## Modelling choices

- **Forms by flavour.** Pure code is modelled as datatypes and functions. Code that updates state in place is modelled as follows:
  - The project table is a class `ProjectStore.Store` with a `projects` map.
  - A scheduling run's occupied blocks, task positions and errors are the fields of a class `Blocks.DayState`.
  - Loops are methods with `while` or `for` loops, each proved against a specification function. The block search is proved against `Blocks.FirstFree`; the gap computation, merge, streaks and level selection against their own functions. Each placement phase loops over its tasks with `for`, and is proved equal to `Layers.Fold`, one `Layers.Step` per task. The three phases together equal `Layers.Run`.
- **The two grids.** One `Blocks.Grid` value carries the block size, the block count and the default priority used when sorting. That is 5/288/20 for PlanFact and 15/96/10 for the modular scheduler. The phases in module `Layers` are written once, over the grid.
- **Acyclic project links.** The source never rejects a cycle of parent links; its recursive walks would simply not end on one. The model assumes a forest explicitly, through a ghost rank that grows from parent to child (module `Hierarchy`).
- **Database failures.** A failing `db.delete` is modelled by a `faulty` set of ids the database refuses to delete.
- **Numbers.**
  - Integers are unbounded.
  - The XP formula is evaluated exactly over `real`, where Python uses floats.
  - `int(math.sqrt(xp / 100))` is modelled as the largest L with 100·L² ≤ xp.
- **Days.** Statistics days are day numbers; the day before d is d − 1.
- **Task fields.** A task's approximate start and end are given already parsed as hour and minute. Its planned time stays a string, read by a model of the regular expression `(\d{1,2}):(\d{2})`. That match is unanchored, so "123:45" reads as 23:45.
- **Source over prose.** Where the project's prose documentation and the code disagree, the model follows the code:
  - the XP penalty bands and the +40 offset follow `xp.py` (lines 29-52);
  - `scheduler.js` describes its blocks as 15 minutes in a doc comment (line 151), but the code uses 5-minute blocks (line 7), and so does the model.
- **Positions past the end of the day.** When an approximate period crosses midnight, the searched range runs past the last block. A window past the end of the day contains no block and counts as free, so the search can return a start after the last block. That task is then "placed" without occupying any block. `Blocks.FullEveningYieldsPositionPastMidnight` exhibits this. The model keeps the behaviour as written.

## Model

| member | source | states |
|---|---|---|
| Xp.QualityMultiplier | backend/utils/xp.py:14-15 | a grade is worth its rank plus one (A 4, B 3, C 2, D 1); a missing grade is worth 1; always between 1 and 4 |
| Xp.TimeQualityMultiplier | backend/utils/xp.py:17 | 1.5 exactly when the time quality is pure, 1.0 otherwise |
| Xp.PriorityMultiplier | backend/utils/xp.py:19-26 | 1.6 − p/10 for priorities 1 to 3 (1.5, 1.4, 1.3), 1.0 for any other priority or none |
| Xp.PenaltyMultiplier | backend/utils/xp.py:29-48 | always 0.5, 0.7 or 1.0, and 1.0 unless both durations are truthy |
| Xp.StrictBandCases | backend/utils/xp.py:34-42 | for A and B: no penalty iff 0.8 ≤ ratio ≤ 1.5; 0.5 iff ratio > 2 or < 0.5; 0.7 iff 1.5 < ratio ≤ 2 or 0.5 ≤ ratio < 0.8 |
| Xp.LenientBandCases | backend/utils/xp.py:44-48 | for C and D: no penalty iff 0.8 ≤ ratio ≤ 1.2; 0.5 iff ratio > 1.5 or < 0.5; 0.7 iff 1.2 < ratio ≤ 1.5 or 0.5 ≤ ratio < 0.8 |
| Xp.LenientBandNoKinder | backend/utils/xp.py:34-48 | at any ratio the C/D band penalises at least as hard as the A/B band |
| Xp.CalculateXp | backend/utils/xp.py:51-52 | the result is the floor of the weighted product plus 40: it is at most that value and greater than that value minus 1 |
| Xp.XpAtLeastOffset | backend/utils/xp.py:51-52 | with a non-negative actual duration a task earns at least 40 XP |
| Xp.XpAtMost | backend/utils/xp.py:12-52 | a task earns at most 40 + 0.9 · actual minutes, the largest multipliers being 4 · 1.5 · 1.5 |
| Xp.WeightedXpBounds | backend/utils/xp.py:11-51 | for a non-negative actual duration the product of base XP (minutes / 10) and the four multipliers lies between 0 and 0.9 · minutes |
| Xp.GradeWeightMonotone | backend/utils/xp.py:14-48 | quality multiplier times penalty never decreases as the grade improves |
| Xp.WeightedXpGradeMonotone | backend/utils/xp.py:12-51 | the weighted product never decreases as the grade improves, all else equal |
| Xp.BetterGradeScoresNoLess | backend/utils/xp.py:11-52 | a better grade never earns less XP, all else equal |
| Xp.PerfectHourScore | backend/utils/xp.py:11-52 | an on-estimate hour graded A, pure, priority 1 earns 94 XP |
| Xp.LevelFromXp | backend/utils/xp.py:3-5 | the level L satisfies 100·L² ≤ xp < 100·(L+1)² |
| Xp.LevelUnique | backend/utils/xp.py:3-5 | any L with 100·L² ≤ xp < 100·(L+1)² is the computed level |
| Xp.LevelMonotone | backend/utils/xp.py:3-5 | more XP never gives a lower level |
| Xp.NextLevelXp | backend/utils/xp.py:7-9 | for a level L ≥ 0 the threshold is an XP whose level is exactly L + 1 |
| Xp.NextLevelAboveXp | backend/utils/xp.py:7-9 | the next-level threshold of the computed level is above the XP, and 200·L + 100 above the level's floor |
| Xp.LevelOf64 | backend/utils/xp.py:3-9 | 0 and 64 XP are level 0, whose next threshold is 100 |
| ProjectStore.Gain | backend/utils/xp.py:64-67 | XP grows by exactly the delta; the level is recomputed so that 100·L² ≤ xp < next threshold = 100·(L+1)²; no other field changes |
| ProjectStore.ActiveProjects | backend/api/projects.py:10-11 | exactly the non-completed projects, unchanged |
| ProjectStore.Store.ApplyXp | backend/utils/xp.py:55-74 | the project and each ancestor become Gain(old, delta); every other project is unchanged; an unknown id changes nothing |
| ProjectStore.Store.DeleteProject | backend/api/projects.py:36-54 | succeeds iff the database deletes every project of the subtree; on success exactly the subtree is gone; on failure the table is as before (rollback) |
| ProjectStore.Store.DeleteDescendants | backend/api/projects.py:37-46 | on success it removes exactly the project and its transitive descendants; the deletion order covers exactly that subtree with every child before its parent |
| ProjectStore.UnknownLeafSubtreeEmpty | backend/api/projects.py:44-46 | an id that is neither a project nor anyone's parent has an empty subtree, so deleting it removes nothing |
| Hierarchy.ChildrenOf | backend/api/projects.py:39 | the children are exactly the projects whose parent link names the id |
| Hierarchy.ReachesTransitive | backend/utils/xp.py:70-71 | an ancestor of an ancestor is an ancestor |
| Hierarchy.ReachesAntisymmetric | backend/utils/xp.py:70-71 | in a forest two projects cannot be each other's ancestors, so the upward walk visits each project once |
| Hierarchy.AncestorsComparable | backend/utils/xp.py:70-71 | the ancestors of a project form a single chain |
| Hierarchy.SiblingSubtreesDisjoint | backend/api/projects.py:41-42 | the subtrees of two different children of a project do not overlap |
| Hierarchy.ProperDescendantHasChildAncestor | backend/api/projects.py:39-42 | every proper descendant lies below one of the direct children |
| Blocks.GridsWellFormed | frontend/src/Pages/Plan/components/PlanFact/utils/scheduler.js:7-8 | 288 blocks of 5 minutes and 96 blocks of 15 minutes both cover exactly 24 hours |
| Blocks.Window | frontend/src/Pages/Plan/components/PlanFact/utils/scheduler.js:12 | block i is in the window iff start ≤ i < start + length and i ≤ the last block of the day |
| Blocks.BlocksNeeded | frontend/src/Pages/Plan/components/PlanFact/utils/scheduler.js:204 | a missing estimate needs 0 blocks; otherwise n blocks with (n−1)·size < estimate ≤ n·size (ceiling) |
| Blocks.BlockToMinutes | frontend/src/Pages/Plan/components/PlanFact/utils/scheduler.js:64-66 | the first minute of block b maps back to block b |
| Blocks.MinutesToBlock | frontend/src/Pages/Plan/components/PlanFact/utils/scheduler.js:69-71 | the block whose minutes contain m: (b − 1)·size ≤ m < b·size |
| Blocks.BlockRoundsDown | frontend/src/Pages/Plan/components/PlanFact/utils/scheduler.js:64-71 | a minute lies within the block it is mapped to |
| Blocks.BlockRoundTrip | frontend/src/Pages/Plan/components/PlanFact/utils/scheduler.js:64-71 | blockToMinutes(minutesToBlock(m)) = m − m mod size for m ≥ 0 |
| Blocks.AreBlocksAvailable | frontend/src/Pages/Plan/components/PlanFact/utils/scheduler.js:11-16 | true iff no block of the window, cut at the end of the day, is occupied |
| Blocks.FindAvailablePosition | frontend/src/Pages/Plan/components/PlanFact/utils/scheduler.js:54-61 | the least start in [start, end − length + 1] with a free window, or −1 when there is none; the loop returns exactly FirstFree |
| Blocks.FirstFree | frontend/src/Pages/Plan/components/PlanFact/utils/scheduler.js:54-61 | the search as a function: the least start from i whose window is free, and no free start before it; or −1 when no start up to end − length + 1 is free |
| Blocks.NotFoundMeansFull | frontend/src/Pages/Plan/utils/schedule/placement.js:17-24 | from a non-negative start, −1 is returned iff no window in the range is free |
| Blocks.FirstFitUnique | frontend/src/Pages/Plan/utils/schedule/placement.js:17-24 | the search has exactly one answer |
| Blocks.WindowIgnoresLateBlocks | frontend/src/Pages/Plan/utils/schedule/placement.js:3-8 | occupied blocks past the end of the day never change availability |
| Blocks.PastTheEndIsFree | frontend/src/Pages/Plan/utils/schedule/placement.js:3-8 | a window that starts after the last block is empty and therefore free |
| Blocks.FullEveningYieldsPositionPastMidnight | frontend/src/Pages/Plan/components/PlanFact/utils/scheduler.js:241-254 | with blocks 277-288 taken, a 23:00-01:00 period gives a 25-minute task block 289, past the end of the day |
| Blocks.DayState.constructor | frontend/src/Pages/Plan/components/PlanFact/utils/scheduler.js:176-178 | a run starts with no occupied block, no position and no error |
| Blocks.DayState.MarkBlocksOccupied | frontend/src/Pages/Plan/components/PlanFact/utils/scheduler.js:19-24 | the occupied set gains exactly the window; the task's position and length are recorded; nothing else changes |
| Blocks.Colliding | frontend/src/Pages/Plan/components/PlanFact/utils/scheduler.js:27-41 | an id is reported iff it is recorded and its placement covers an occupied block of the window |
| Blocks.DayState.CollidingTasks | frontend/src/Pages/Plan/components/PlanFact/utils/scheduler.js:27-41 | only placed tasks that cover an occupied block of the window are reported |
| Blocks.DayState.NoCollisionIsDisjoint | frontend/src/Pages/Plan/components/PlanFact/utils/scheduler.js:211-219 | when no collision is reported, the window overlaps no placed task's window |
| Blocks.DayState.FreeHasNoCollision | frontend/src/Pages/Plan/components/PlanFact/utils/scheduler.js:259-265 | a window the search found free reports no collision, so that check after the search never fires |
| Blocks.DayState.MarkKeepsValid | frontend/src/Pages/Plan/components/PlanFact/utils/scheduler.js:219 | marking a window that overlaps no placed task keeps the placed windows pairwise disjoint and within the occupied set |
| DayTasks.MatchFrom | frontend/src/Pages/Plan/components/PlanFact/utils/scheduler.js:195 | the leftmost match at or after a position, or none iff nothing matches there |
| DayTasks.MatchAt | frontend/src/Pages/Plan/components/PlanFact/utils/scheduler.js:195 | a match at a position reads an hour and a minute of 0-99 |
| DayTasks.MatchClock | frontend/src/Pages/Plan/components/PlanFact/utils/scheduler.js:195 | none iff the pattern matches nowhere; hour and minute read are 0-99 |
| DayTasks.ClockRoundTrip | frontend/src/Pages/Plan/components/PlanFact/utils/scheduler.js:195-202 | a time written as two digits, a colon and two digits reads back as itself |
| DayTasks.ShortHourRead | frontend/src/Pages/Plan/components/PlanFact/utils/scheduler.js:195 | "9:30" reads as 9:30 |
| DayTasks.UnanchoredMatch | frontend/src/Pages/Plan/components/PlanFact/utils/scheduler.js:195 | "123:45" reads as 23:45 |
| DayTasks.PriorityOr | frontend/src/Pages/Plan/components/PlanFact/utils/scheduler.js:46-47 | the priority unless it is missing or 0, then the default |
| DayTasks.LetterRank | frontend/src/Pages/Plan/components/PlanFact/utils/scheduler.js:49 | letters rank 0-3, a missing quality ranks as D |
| DayTasks.SortTasks | frontend/src/Pages/Plan/components/PlanFact/utils/scheduler.js:44-51 | a permutation of the input, ordered by priority (missing counts as the default) and then quality letter |
| DayTasks.PriorityDecidesFirst | frontend/src/Pages/Plan/components/PlanFact/utils/scheduler.js:48 | a task with a lower priority value comes first |
| DayTasks.SortTasksStable | frontend/src/Pages/Plan/components/PlanFact/utils/scheduler.js:44-51 | tasks with equal priority and letter keep their input order |
| Layers.FixedRequest | frontend/src/Pages/Plan/components/PlanFact/utils/scheduler.js:195-204 | a request exists iff the planned time matches, and its length is the blocks the estimate needs |
| Layers.ApproximateRange | frontend/src/Pages/Plan/components/PlanFact/utils/scheduler.js:233-252 | a range exists iff both bounds are present; it starts no earlier than the start's block, and no earlier than the run's start block today |
| Layers.PlaceFixed | frontend/src/Pages/Plan/components/PlanFact/utils/scheduler.js:193-220 | the new state is Step of the old one. The four outcomes: A bad time format, a task that does not fit in the day, or a collision adds one error naming the task and changes nothing else. Otherwise the task is placed at its block |
| Layers.PlaceApproximate | frontend/src/Pages/Plan/components/PlanFact/utils/scheduler.js:225-268 | the new state is Step of the old one. Missing bounds add an error. Otherwise the task is placed at the first fit in its range, or an error is added when none exists |
| Layers.PlaceUnassigned | frontend/src/Pages/Plan/components/PlanFact/utils/scheduler.js:274-294 | the new state is Step of the old one: the task is placed at the first fit from the start block to the end of the day, or an error is added when none exists |
| Layers.PlaceFree | frontend/src/Pages/Plan/components/PlanFact/utils/scheduler.js:219 | placing into a free window records the position and occupies exactly the window |
| Layers.Step | frontend/src/Pages/Plan/components/PlanFact/utils/scheduler.js:193-294 | one task handled by its phase's rule: a fixed task at its planned block unless it overruns the day or collides, an approximate task at the first fit of its range, an unassigned task at the first fit from the start block. Exactly one of two outcomes: its position is set and only the occupied blocks also change, or one error naming it is appended and nothing else changes |
| Layers.Fold | frontend/src/Pages/Plan/components/PlanFact/utils/scheduler.js:190-294 | tasks handled one after another: positions only added, only for these tasks; errors only appended; every task ends placed or named by an error |
| Layers.FoldNext | frontend/src/Pages/Plan/components/PlanFact/utils/scheduler.js:191-294 | handling one more task is one more Step |
| Layers.PhaseTasks | frontend/src/Pages/Plan/components/PlanFact/utils/scheduler.js:191-291 | a task is handled by a phase iff it is an input task of that phase's kind (planned time, approximate period, neither) |
| Layers.Run | frontend/src/Pages/Plan/components/PlanFact/utils/scheduler.js:176-294 | three folds on an empty day; only input ids get positions and every input task is placed or named by an error |
| Layers.StepKeepsConsistent | frontend/src/Pages/Plan/components/PlanFact/utils/scheduler.js:193-294 | a step keeps every placed window occupied and the placed windows pairwise disjoint |
| Layers.FoldKeepsConsistent | frontend/src/Pages/Plan/components/PlanFact/utils/scheduler.js:190-294 | a whole phase keeps the day consistent |
| Layers.RunConsistent | frontend/src/Pages/Plan/components/PlanFact/utils/scheduler.js:176-294 | a run never books a block twice: placed windows are occupied and pairwise disjoint |
| Layers.ScheduleFixedTasks | frontend/src/Pages/Plan/components/PlanFact/utils/scheduler.js:190-220 | the loop leaves the day exactly as Fold over the planned-time tasks in input order, and consistent |
| Layers.ScheduleApproximateTasks | frontend/src/Pages/Plan/components/PlanFact/utils/scheduler.js:222-268 | the loop leaves the day exactly as Fold over the approximate tasks sorted by priority and quality, and consistent |
| Layers.ScheduleUnassignedTasks | frontend/src/Pages/Plan/components/PlanFact/utils/scheduler.js:270-294 | the loop leaves the day exactly as Fold over the remaining tasks sorted by priority and quality, and consistent |
| Layers.RunPhases | frontend/src/Pages/Plan/components/PlanFact/utils/scheduler.js:176-294 | the positions and errors are exactly those of Run; positions only for input tasks, placed windows pairwise disjoint, every task placed or named by an error |
| Layers.Assemble | frontend/src/Pages/Plan/components/PlanFact/utils/scheduler.js:296-306 | placed and unplaced tasks partition the input; the placed ones are sorted by position |
| ChronoMerge.Merge | frontend/src/Pages/Plan/components/PlanFact/utils/scheduler.js:316-341 | the loop produces the two-way merge taking the gap first iff it starts strictly earlier |
| ChronoMerge.MergeKeepsBoth | frontend/src/Pages/Plan/components/PlanFact/utils/scheduler.js:320-341 | the merge has every task and every gap once, each list in its own order |
| ChronoMerge.GapFirstRule | frontend/src/Pages/Plan/components/PlanFact/utils/scheduler.js:324-333 | the first element is the first gap iff it starts before the first task, otherwise the first task |
| ChronoMerge.MergeAscending | frontend/src/Pages/Plan/components/PlanFact/utils/scheduler.js:316-341 | merging two ascending lists gives an ascending list |
| PlanFact.GapFrom | frontend/src/Pages/Plan/components/PlanFact/utils/scheduler.js:121-128 | a gap exists iff the period is not empty, and its length is end − start |
| PlanFact.TaskEnd | frontend/src/Pages/Plan/components/PlanFact/utils/scheduler.js:118 | with a non-negative estimate a task ends no earlier than it starts |
| PlanFact.Between | frontend/src/Pages/Plan/components/PlanFact/utils/scheduler.js:110-130 | at most one gap per task, each non-empty with its length in minutes |
| PlanFact.PreciseGaps | frontend/src/Pages/Plan/components/PlanFact/utils/scheduler.js:74-148 | every gap is a non-empty period with its length in minutes |
| PlanFact.GapsBetween | frontend/src/Pages/Plan/components/PlanFact/utils/scheduler.js:110-130 | the loop computes the gaps between consecutive tasks |
| PlanFact.CalculatePreciseGaps | frontend/src/Pages/Plan/components/PlanFact/utils/scheduler.js:74-148 | the function computes the gap before the first task, the gaps between tasks and the gap after the last task |
| PlanFact.BetweenAscending | frontend/src/Pages/Plan/components/PlanFact/utils/scheduler.js:110-130 | for tasks in order of start, the gaps lie between the first and last start and ascend |
| PlanFact.PreciseGapsAscending | frontend/src/Pages/Plan/components/PlanFact/utils/scheduler.js:74-148 | for tasks in order of start, all gaps ascend by start minute |
| PlanFact.Collect | frontend/src/Pages/Plan/components/PlanFact/utils/scheduler.js:296-344 | keeps the run's positions and errors and satisfies Collected: the placed and unscheduled tasks partition the input; a task is placed iff its id has a position; each unscheduled task has an error naming it; placed tasks in position order; the gaps are the precise gaps; chronological merge when no estimate is negative |
| PlanFact.ScheduleTasks | frontend/src/Pages/Plan/components/PlanFact/utils/scheduler.js:156-355 | no tasks gives one gap for the rest of the day. Otherwise the positions and errors are those of Run from the start time's block, and the result is Collect of them, so it satisfies Collected: every task is merged placed or listed unscheduled with an error naming it. Placed tasks are in position order with disjoint windows, the gaps are the precise gaps, and the merge is chronological |
| PlanFact.Chronological | frontend/src/Pages/Plan/components/PlanFact/utils/scheduler.js:312-341 | placed tasks merged with their gaps ascend by start minute |
| PlanFact.Entries | frontend/src/Pages/Plan/components/PlanFact/utils/scheduler.js:343-344 | the returned list is the merge followed by the unscheduled tasks |
| PlanFact.FindTask | frontend/src/Pages/Plan/components/PlanFact/utils/scheduler.js:369 | the first task entry with the id, or none iff there is none |
| PlanFact.FoundScheduledIffPlaced | frontend/src/Pages/Plan/components/PlanFact/utils/scheduler.js:365-371 | a task of the run is found and not flagged unscheduled iff it received a position |
| PlanFact.CanScheduleTask | frontend/src/Pages/Plan/components/PlanFact/utils/scheduler.js:365-371 | true iff the new task received a position in Run over the tasks plus it |
| ModularSchedule.StartBlock | frontend/src/Pages/Plan/utils/schedule/index.js:14-16 | block 1 without a start time, otherwise the 15-minute block containing it |
| ModularSchedule.WithPositions | frontend/src/Pages/Plan/utils/schedule/index.js:30 | each placed task is paired with its recorded position |
| ModularSchedule.Collect | frontend/src/Pages/Plan/utils/schedule/index.js:26-33 | scheduled and unscheduled tasks partition the input; a task is scheduled iff its id has a position and then carries it; scheduled tasks in ascending position; each unscheduled task has an error naming it |
| ModularSchedule.ScheduleTasks | frontend/src/Pages/Plan/utils/schedule/index.js:7-45 | no tasks gives empty results. Otherwise the positions and errors are those of Run on the 15-minute grid, and the result is Collect of them: scheduled and unscheduled tasks partition the input. Scheduled tasks carry their positions in ascending order, unscheduled ones are named by an error, and placed windows are disjoint |
| ModularSchedule.MergeSchedule | frontend/src/Pages/Plan/utils/schedule/index.js:48-72 | the result is exactly the two-way merge ChronoMerge.Merged, which at every step takes the next gap iff it starts at a strictly earlier block than the next task; hence every task and gap appears once in its own order, and ascending inputs merge ascending |
| ModularSchedule.FindScheduled | frontend/src/Pages/Plan/utils/schedule/index.js:79 | none iff no scheduled task has the id; otherwise the task at an index holding the id with no earlier index holding it |
| ModularSchedule.FoundIffPlaced | frontend/src/Pages/Plan/utils/schedule/index.js:79-80 | for an input task, find succeeds iff its id received a position |
| ModularSchedule.CanScheduleTask | frontend/src/Pages/Plan/utils/schedule/index.js:75-81 | true iff the new task received a position in Run over the tasks plus it |
| ProjectUtils.GetColumnProjects | frontend/src/Pages/Plan/utils/projectUtils.js:3-15 | a permutation of the non-completed projects under the parent (the roots when the parent is falsy), ordered by level and then XP, both descending |
| ProjectUtils.ColumnStable | frontend/src/Pages/Plan/utils/projectUtils.js:7-14 | projects with equal level and XP keep their input order |
| ProjectUtils.DirectIds | frontend/src/Pages/Plan/utils/projectUtils.js:18 | exactly the ids of the projects whose parent is the given id |
| ProjectUtils.GetDescendantProjectIds | frontend/src/Pages/Plan/utils/projectUtils.js:17-24 | the list starts with the direct children's ids, in project order |
| ProjectUtils.DescendantsExact | frontend/src/Pages/Plan/utils/projectUtils.js:17-24 | an id is returned iff it is a proper descendant of the parent |
| ProjectUtils.DescendantsDistinct | frontend/src/Pages/Plan/utils/projectUtils.js:17-24 | no id is returned twice |
| ProjectUtils.GetPrevLevelXp | frontend/src/Pages/Plan/utils/projectUtils.js:26-28 | for a level L ≥ 0 the result is an XP whose level is exactly L |
| ProjectUtils.PrevLevelIsThreshold | frontend/src/Pages/Plan/utils/projectUtils.js:26-28 | getPrevLevelXP(L) is the next-level threshold of level L − 1, and that XP is level L |
| PlanUtils.QualityOrder | frontend/src/Pages/Plan/components/PlanFact/utils/planUtils.js:3 | ranks 1 to 5, and 5 exactly for anything but A, B, C, D |
| PlanUtils.SortPlanItems | frontend/src/Pages/Plan/components/PlanFact/utils/planUtils.js:5-17 | a permutation of exactly the items in the plan column, ordered by priority (missing counts as 0) and then quality rank |
| PlanUtils.PlanOrderStable | frontend/src/Pages/Plan/components/PlanFact/utils/planUtils.js:8-15 | items with equal priority and rank keep their input order |
| TimeUtils.Decimal | frontend/src/shared/utils/time.js:8 | a number is written as decimal digits, with no leading zero |
| TimeUtils.DecimalRoundTrip | frontend/src/shared/utils/time.js:7-15 | reading the written digits gives the number back |
| TimeUtils.FormatMinutesToHours | frontend/src/shared/utils/time.js:1-16 | "0m" for a missing or negative value; every label ends in m or h |
| TimeUtils.MinutesLabelRead | frontend/src/shared/utils/time.js:7-9 | "Nm" reads back as N minutes |
| TimeUtils.HoursLabelRead | frontend/src/shared/utils/time.js:10-13 | "Hh" reads back as 60·H minutes |
| TimeUtils.MixedLabelRead | frontend/src/shared/utils/time.js:10-15 | "Hh Mm" reads back as 60·H + M minutes |
| TimeUtils.FormatReadRoundTrip | frontend/src/shared/utils/time.js:1-16 | every label reads back as the minutes it was made from (0 for a missing or negative value) |
| TimeUtils.FindById | frontend/src/shared/utils/time.js:110 | the first project with the id, or none iff there is none |
| TimeUtils.ProjectBreadcrumb | frontend/src/shared/utils/time.js:108-111 | "" without projects or id, and "" when the project is not found |
| TimeUtils.BreadcrumbShape | frontend/src/shared/utils/time.js:112-118 | ends with the project's name; is longer iff the parent is found, and then starts with "Parent / " |
| TimeUtils.Prefix10 | frontend/src/shared/utils/time.js:130 | the first 10 characters, or the whole string when shorter |
| TimeUtils.DayEstimatedDuration | frontend/src/shared/utils/time.js:127-128 | 0 without items and 0 for no items |
| TimeUtils.DayDurationAppend | frontend/src/shared/utils/time.js:130-131 | the day sum of two lists is the sum of their day sums |
| TimeUtils.DayDurationSingle | frontend/src/shared/utils/time.js:130-131 | one item adds its estimate (missing counts as 0) iff its day id's prefix is the day |
| TimeUtils.OtherDaysAddNothing | frontend/src/shared/utils/time.js:130 | items of other days add nothing |
| TimeUtils.DayDurationBounds | frontend/src/shared/utils/time.js:127-132 | with no negative estimates the day sum lies between 0 and the sum over all items |
| Statistics.TotalXpAppend | frontend/src/Pages/stat/utils/statistics.js:37-39 | the total XP of two lists is the sum of their totals |
| Statistics.TotalXpSingle | frontend/src/Pages/stat/utils/statistics.js:38 | one item contributes its XP, 0 when missing |
| Statistics.TotalXp | frontend/src/Pages/stat/utils/statistics.js:37-39 | with no negative XP the total is not negative |
| Statistics.TotalTasks | frontend/src/Pages/stat/utils/statistics.js:42-44 | at most the number of items, and all of them when every item is completed |
| Statistics.TotalTasksAppend | frontend/src/Pages/stat/utils/statistics.js:42-44 | the completed count of two lists is the sum of their counts |
| Statistics.TotalTasksSingle | frontend/src/Pages/stat/utils/statistics.js:42-44 | one item counts 1 iff it is completed, else 0 |
| Statistics.TotalActualAppend | frontend/src/Pages/stat/utils/statistics.js:47-49 | the total actual duration of two lists is the sum of their totals |
| Statistics.TotalActualSingle | frontend/src/Pages/stat/utils/statistics.js:48 | one item contributes its actual duration, 0 when missing |
| Statistics.TotalActualDuration | frontend/src/Pages/stat/utils/statistics.js:47-49 | with no negative durations the total is not negative |
| Statistics.TotalActualBounds | frontend/src/Pages/stat/utils/statistics.js:47-49 | with no negative durations the total is non-negative and at least each item's duration |
| Statistics.PlannedDurationAdd | frontend/src/Pages/stat/utils/statistics.js:52-56 | adding a daily-basic item adds nothing; any other adds its estimate |
| Statistics.TotalPlannedDuration | frontend/src/Pages/stat/utils/statistics.js:52-56 | with no negative estimates the planned total lies between 0 and the sum of all estimates |
| Statistics.CompletedDays | frontend/src/Pages/stat/utils/statistics.js:17-23 | a day is in the set iff some completed item is on it |
| Statistics.StreakAtDate | frontend/src/Pages/stat/utils/statistics.js:74-89 | all `streak` days ending at the end day are completed days, and the day before them is not |
| Statistics.SortedDays | frontend/src/Pages/stat/utils/statistics.js:93 | an increasing list with the same elements |
| Statistics.CompletedDayList | frontend/src/Pages/stat/utils/statistics.js:93 | exactly the completed days |
| Statistics.BestStreak | frontend/src/Pages/stat/utils/statistics.js:92-112 | 0 iff there is no completed day, at most the number of days. Some run of consecutive completed days has exactly that length, and no run is longer |
| Statistics.LongestRun | frontend/src/Pages/stat/utils/statistics.js:93-111 | over the sorted day list: 0 iff the list is empty, at most its length, equal to the run of consecutive days ending at some index, and no run ending at any index is longer |
| Statistics.BestXp | frontend/src/Pages/stat/utils/statistics.js:115-117 | at least 0 and every item's XP, and either 0 or some item's XP |
| Statistics.QualityScore | frontend/src/Pages/stat/utils/statistics.js:159-162 | a score exists iff the quality is A-D, and then it lies between 1 and 4 |
| Statistics.GradedSumBounds | frontend/src/Pages/stat/utils/statistics.js:159-165 | the sum of k grades lies between k and 4k |
| Statistics.AvgTaskQuality | frontend/src/Pages/stat/utils/statistics.js:158-166 | 0 iff no item has a grade; otherwise between 1 and 4, and exactly the sum of the scores of the graded items divided by their number |
| Statistics.GradedMean | frontend/src/Pages/stat/utils/statistics.js:159-165 | over items that all have a grade: 0 iff there are none, otherwise between 1 and 4 and the sum of scores over their number |
| Statistics.UngradedKeepsAverage | frontend/src/Pages/stat/utils/statistics.js:159-166 | appending an item without one of the grades A-D leaves the average unchanged |
| Badges.CatalogueAscending | frontend/src/Pages/stat/badges/badgeCalculations.js:3-173 | every badge's level thresholds are positive and strictly ascending |
| Badges.GetBadgeById | frontend/src/Pages/stat/badges/badgeCalculations.js:175-177 | none iff no badge has the id; a badge found is in the catalogue, has the id and ascending thresholds |
| Badges.BadgesByCategory | frontend/src/Pages/stat/badges/badgeCalculations.js:180-182 | exactly the catalogue's badges of that category |
| Badges.UnknownBadge | frontend/src/Pages/stat/badges/badgeCalculations.js:186-187 | an example: "streak_master" is not a catalogue id, so the lookup finds nothing (the general case is GetBadgeById: none iff no badge has the id) |
| Badges.BonusCount | frontend/src/Pages/stat/badges/badgeCalculations.js:194-200 | at most the length of the bonus history, and 0 iff no entry has the bonus id |
| Badges.QualityChampionCount | frontend/src/Pages/stat/badges/badgeCalculations.js:203-212 | at most the number of items, and 0 iff no item is a completed A, priority 1, pure task of at least 120 minutes |
| Badges.EpicAchieverCount | frontend/src/Pages/stat/badges/badgeCalculations.js:214-223 | at most the number of items, and 0 iff no item is such a task of at least 240 minutes |
| Badges.EpicAtMostChampion | frontend/src/Pages/stat/badges/badgeCalculations.js:203-222 | every epic task is also a champion task |
| Badges.ChampionThreshold | frontend/src/Pages/stat/badges/badgeCalculations.js:203-222 | a single item counts iff it is a completed A, priority 1, pure task of at least 120 (or 240) minutes |
| Badges.BadgeCount | frontend/src/Pages/stat/badges/badgeCalculations.js:189-299 | the count for quality_champion, epic_achiever and xp_millionaire, and 0 for an id with no count |
| Badges.FirstUnreached | frontend/src/Pages/stat/badges/badgeCalculations.js:305-313 | every level before it is reached and the level at it is not |
| Badges.ReachedIffBefore | frontend/src/Pages/stat/badges/badgeCalculations.js:305-313 | with ascending thresholds, a level is reached iff it lies before the first unreached one |
| Badges.SelectLevels | frontend/src/Pages/stat/badges/badgeCalculations.js:302-313 | the loop picks the level before the first unreached one as current and the first unreached one as next |
| Badges.SelectionMeaning | frontend/src/Pages/stat/badges/badgeCalculations.js:305-313 | current is the highest reached level (or none); next is the first unreached level (or none when all are reached) |
| Badges.Progress | frontend/src/Pages/stat/badges/badgeCalculations.js:320 | 100 without a next level; otherwise progress × threshold = count × 100 |
| Badges.ProgressBelowFull | frontend/src/Pages/stat/badges/badgeCalculations.js:320 | progress is between 0 and 100, and exactly 100 iff there is no next level |
| Badges.CalculateBadgeProgress | frontend/src/Pages/stat/badges/badgeCalculations.js:185-322 | none iff the id is unknown; otherwise the badge, its count, the highest reached and first unreached levels, and the progress count / next threshold × 100, between 0 and 100 and 100 iff no level is left |

## Left out

- Databases, HTTP routing, sessions and commits are not modelled. `db.query` is a lookup in the `projects` map; a failing delete is a member of the `faulty` set.
- ProjectStore.Store.ApplyXp: requires every total on the ancestor chain to stay non-negative. Python's `math.sqrt` raises on a negative total; the model does not reproduce that exception.
- ProjectStore.Store.ApplyXp: the unused `actual_duration` argument and the per-level `db.commit()` are not modelled.
- Xp.CalculateXp: exact rational arithmetic, not IEEE floating point; rounding differences of Python floats are not modelled.
- Xp.CalculateXp: the actual duration is an integer. The item's `actual_duration` column is nullable (backend/models/item.py:28) and is passed on unchecked (backend/api/items.py:124-125); for a missing value `None / 10` at backend/utils/xp.py:12 raises a TypeError, which the model does not reproduce.
- Xp.LevelFromXp: defined for non-negative XP only; `math.sqrt` of a negative number raises.
- Cyclic parent links are not modelled. The source's recursive walks would not terminate on a cycle, so the model assumes a forest.
- Dates and the clock are not modelled:
  - `toLocalDateString`, `getTodayDateString`, `getLocalDateFromCompletedTime`, `getLocalDateObjectFromCompletedTime`, `formatCompletedTimeForDisplay` and `isApproximatePeriodInPast` in `shared/utils/time.js`;
  - `getCurrentStreak`, `filterItemsByView` and `getLocalDateString` in `statistics.js`.
  
  Statistics days are day numbers; the string-to-date conversion of `getItemDay` is not modelled.
- Other statistics are not part of this model. This covers `getBestXPPerDay`, `getBestActualDuration`, `getBestProductivity`, the average durations, `getAvgPriority`, `getAvgProductivity`, `getAllStats` and `aggregateByDay`. They are floating-point ratios or per-day groupings over date strings.
- Badges.BadgeCount: the weekend_warrior count depends on `getWeekendDays`/`getWeeklyAverage` and the Date API, so it is a parameter. The consistency_legend count, `getCurrentStreak`, depends on the clock and is also a parameter. pure_focus_master hours are exact reals.
- Badges.CalculateBadgeProgress: `async` and the dynamic import are not modelled.
- Badges: the description, colour and icon fields of the catalogue are not modelled.
- Badges.ProgressBelowFull: assumes a non-negative count and a positive next threshold. Every catalogue threshold is positive, by Badges.CatalogueAscending.
- `gapFinder.js` (`findGaps`) is not part of this model:
  - ModularSchedule.ScheduleTasks does not return gaps;
  - ModularSchedule.MergeSchedule takes the gaps as input.
- ModularSchedule.ScheduleTasks: an empty input returns empty lists, where the source returns the input array itself and no `unscheduledTasks` field. A missing (`null`) task list is not modelled.
- PlanFact.ScheduleTasks: a missing (`null`) task list is not modelled.
- The debug logging of `scheduler.js` is not modelled.
- DayTasks: task quality is one of the letters A-D or missing. `localeCompare` on other strings is not modelled.
- Layers.ApproximateRange: `approximate_start`/`approximate_end` arrive parsed as hour and minute. Strings that `split(':').map(Number)` turns into `NaN` are not modelled.
- Layers.Step: a task not placed is identified with the error that names it by its description, since errors carry descriptions only. Two tasks with the same description cannot be told apart by their errors.
- Blocks.Colliding: the source reports, per occupied block of the window, the first task covering it in insertion order. The model states the set of covering tasks. In a consistent day each block is covered by at most one task, so the two agree.
- Layers.PlaceFixed: a collision error lists the colliding task ids. The source joins the first two descriptions into the message; the error text is not modelled.
- TimeUtils.FormatMinutesToHours: integer minutes only. `NaN` and fractional minutes are not modelled.
- PlanUtils.QualityOrder: qualities are plain strings. Prototype keys of the `qualityOrder` object are not modelled.
- PlanUtils.SortPlanItems: the input is a value, so it cannot be mutated. No separate member states this.
