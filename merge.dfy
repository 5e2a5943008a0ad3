/**
 * The chronological merge both schedulers end with: two index cursors
 * walk a list of placed tasks and a list of gaps; while both lists have
 * an element left, the gap goes first exactly when it starts strictly
 * before the task, and once one list is exhausted the other is copied.
 *
 * Tasks and gaps are compared through their start keys (minutes in the
 * PlanFact scheduler, blocks in the modular one).
 */
module ChronoMerge {
  /** An element of the merged list: a gap or a task. */
  datatype Either<G, T> = Gap(gap: G) | Task(task: T)

  function Gaps<G, T>(s: seq<Either<G, T>>): (r: seq<G>)
    ensures |r| <= |s|
  {
    if s == [] then []
    else (if s[0].Gap? then [s[0].gap] else []) + Gaps(s[1..])
  }

  function Tasks<G, T>(s: seq<Either<G, T>>): (r: seq<T>)
    ensures |r| <= |s|
  {
    if s == [] then []
    else (if s[0].Task? then [s[0].task] else []) + Tasks(s[1..])
  }

  function AllGaps<G, T>(gs: seq<G>): (r: seq<Either<G, T>>)
    ensures |r| == |gs|
    ensures forall i :: 0 <= i < |r| ==> r[i] == Gap(gs[i])
  {
    if gs == [] then [] else [Gap(gs[0])] + AllGaps(gs[1..])
  }

  function AllTasks<G, T>(ts: seq<T>): (r: seq<Either<G, T>>)
    ensures |r| == |ts|
    ensures forall i :: 0 <= i < |r| ==> r[i] == Task(ts[i])
  {
    if ts == [] then [] else [Task(ts[0])] + AllTasks(ts[1..])
  }

  /** The merge, one step at a time from the front. */
  ghost function Merged<G, T>(ts: seq<T>, gs: seq<G>, gapKey: G -> int, taskKey: T -> int): seq<Either<G, T>>
    decreases |ts| + |gs|
  {
    if ts == [] then AllGaps(gs)
    else if gs == [] then AllTasks(ts)
    else if gapKey(gs[0]) < taskKey(ts[0]) then [Gap(gs[0])] + Merged(ts, gs[1..], gapKey, taskKey)
    else [Task(ts[0])] + Merged(ts[1..], gs, gapKey, taskKey)
  }

  lemma UnfoldGap<G, T>(ts: seq<T>, gs: seq<G>, gapKey: G -> int, taskKey: T -> int)
    requires gs != [] && (ts == [] || gapKey(gs[0]) < taskKey(ts[0]))
    ensures Merged(ts, gs, gapKey, taskKey) == [Gap(gs[0])] + Merged(ts, gs[1..], gapKey, taskKey)
  {
    if ts == [] {
      assert AllGaps<G, T>(gs) == [Gap(gs[0])] + AllGaps<G, T>(gs[1..]);
    }
  }

  lemma UnfoldTask<G, T>(ts: seq<T>, gs: seq<G>, gapKey: G -> int, taskKey: T -> int)
    requires ts != [] && (gs == [] || !(gapKey(gs[0]) < taskKey(ts[0])))
    ensures Merged(ts, gs, gapKey, taskKey) == [Task(ts[0])] + Merged(ts[1..], gs, gapKey, taskKey)
  {
    if gs == [] {
      assert AllTasks<G, T>(ts) == [Task(ts[0])] + AllTasks<G, T>(ts[1..]);
    }
  }

  /** mergeSchedule: the while loop over the two cursors. */
  method Merge<G, T>(ts: seq<T>, gs: seq<G>, gapKey: G -> int, taskKey: T -> int) returns (merged: seq<Either<G, T>>)
    ensures merged == Merged(ts, gs, gapKey, taskKey)
  {
    merged := [];
    var taskIndex, gapIndex := 0, 0;
    while taskIndex < |ts| || gapIndex < |gs|
      invariant 0 <= taskIndex <= |ts| && 0 <= gapIndex <= |gs|
      invariant merged + Merged(ts[taskIndex..], gs[gapIndex..], gapKey, taskKey) == Merged(ts, gs, gapKey, taskKey)
      decreases |ts| - taskIndex + |gs| - gapIndex
    {
      if gapIndex < |gs| && (taskIndex == |ts| || gapKey(gs[gapIndex]) < taskKey(ts[taskIndex])) {
        UnfoldGap(ts[taskIndex..], gs[gapIndex..], gapKey, taskKey);
        assert gs[gapIndex..][1..] == gs[gapIndex + 1..];
        ghost var tail := Merged(ts[taskIndex..], gs[gapIndex + 1..], gapKey, taskKey);
        assert (merged + [Gap(gs[gapIndex])]) + tail == merged + ([Gap(gs[gapIndex])] + tail);
        merged := merged + [Gap(gs[gapIndex])];
        gapIndex := gapIndex + 1;
      } else {
        UnfoldTask(ts[taskIndex..], gs[gapIndex..], gapKey, taskKey);
        assert ts[taskIndex..][1..] == ts[taskIndex + 1..];
        ghost var tail := Merged(ts[taskIndex + 1..], gs[gapIndex..], gapKey, taskKey);
        assert (merged + [Task(ts[taskIndex])]) + tail == merged + ([Task(ts[taskIndex])] + tail);
        merged := merged + [Task(ts[taskIndex])];
        taskIndex := taskIndex + 1;
      }
    }
    assert ts[taskIndex..] == [] && gs[gapIndex..] == [];
  }

  // ---------------------------------------------------------------------------
  // Properties of the merge
  // ---------------------------------------------------------------------------

  lemma {:induction false} GapsAllGaps<G, T>(gs: seq<G>)
    ensures Gaps(AllGaps<G, T>(gs)) == gs && Tasks(AllGaps<G, T>(gs)) == []
  {
    if gs != [] {
      GapsAllGaps<G, T>(gs[1..]);
    }
  }

  lemma {:induction false} TasksAllTasks<G, T>(ts: seq<T>)
    ensures Tasks(AllTasks<G, T>(ts)) == ts && Gaps(AllTasks<G, T>(ts)) == []
  {
    if ts != [] {
      TasksAllTasks<G, T>(ts[1..]);
    }
  }

  /**
   * Nothing is lost, duplicated or reordered: the merge holds every task
   * and every gap, and reading only its tasks (only its gaps) gives back
   * the task list (the gap list).
   */
  lemma {:induction false} MergeKeepsBoth<G, T>(ts: seq<T>, gs: seq<G>, gapKey: G -> int, taskKey: T -> int)
    ensures |Merged(ts, gs, gapKey, taskKey)| == |ts| + |gs|
    ensures Tasks(Merged(ts, gs, gapKey, taskKey)) == ts
    ensures Gaps(Merged(ts, gs, gapKey, taskKey)) == gs
    decreases |ts| + |gs|
  {
    if ts == [] {
      GapsAllGaps<G, T>(gs);
    } else if gs == [] {
      TasksAllTasks<G, T>(ts);
    } else if gapKey(gs[0]) < taskKey(ts[0]) {
      MergeKeepsBoth(ts, gs[1..], gapKey, taskKey);
      GapInFront(gs[0], Merged(ts, gs[1..], gapKey, taskKey));
      assert gs == [gs[0]] + gs[1..];
    } else {
      MergeKeepsBoth(ts[1..], gs, gapKey, taskKey);
      TaskInFront(ts[0], Merged(ts[1..], gs, gapKey, taskKey));
      assert ts == [ts[0]] + ts[1..];
    }
  }

  lemma GapInFront<G, T>(g: G, rest: seq<Either<G, T>>)
    ensures Gaps([Gap(g)] + rest) == [g] + Gaps(rest) && Tasks([Gap(g)] + rest) == Tasks(rest)
  {
    assert ([Gap(g)] + rest)[1..] == rest;
  }

  lemma TaskInFront<G, T>(t: T, rest: seq<Either<G, T>>)
    ensures Tasks([Task(t)] + rest) == [t] + Tasks(rest) && Gaps([Task(t)] + rest) == Gaps(rest)
  {
    assert ([Task(t)] + rest)[1..] == rest;
  }

  /** While both lists are non-empty, the next element is the gap exactly when it starts before the task. */
  lemma GapFirstRule<G, T>(ts: seq<T>, gs: seq<G>, gapKey: G -> int, taskKey: T -> int)
    requires ts != [] && gs != []
    ensures Merged(ts, gs, gapKey, taskKey)[0] == Gap(gs[0]) <==> gapKey(gs[0]) < taskKey(ts[0])
    ensures Merged(ts, gs, gapKey, taskKey)[0] == Task(ts[0]) <==> !(gapKey(gs[0]) < taskKey(ts[0]))
  {
  }

  function KeyOf<G, T>(e: Either<G, T>, gapKey: G -> int, taskKey: T -> int): int {
    match e
    case Gap(g) => gapKey(g)
    case Task(t) => taskKey(t)
  }

  ghost predicate Ascending<X>(s: seq<X>, key: X -> int) {
    forall i, j :: 0 <= i < j < |s| ==> key(s[i]) <= key(s[j])
  }

  ghost predicate MergedAscending<G, T>(m: seq<Either<G, T>>, gapKey: G -> int, taskKey: T -> int) {
    forall i, j :: 0 <= i < j < |m| ==> KeyOf(m[i], gapKey, taskKey) <= KeyOf(m[j], gapKey, taskKey)
  }

  lemma {:induction false} MergeAbove<G, T>(ts: seq<T>, gs: seq<G>, gapKey: G -> int, taskKey: T -> int, b: int)
    requires forall i :: 0 <= i < |ts| ==> b <= taskKey(ts[i])
    requires forall i :: 0 <= i < |gs| ==> b <= gapKey(gs[i])
    ensures forall e :: e in Merged(ts, gs, gapKey, taskKey) ==> b <= KeyOf(e, gapKey, taskKey)
    decreases |ts| + |gs|
  {
    if ts == [] || gs == [] {
    } else if gapKey(gs[0]) < taskKey(ts[0]) {
      MergeAbove(ts, gs[1..], gapKey, taskKey, b);
    } else {
      MergeAbove(ts[1..], gs, gapKey, taskKey, b);
    }
  }

  /** Merging a chronological task list with a chronological gap list gives a chronological list. */
  lemma {:induction false} MergeAscending<G, T>(ts: seq<T>, gs: seq<G>, gapKey: G -> int, taskKey: T -> int)
    requires Ascending(ts, taskKey) && Ascending(gs, gapKey)
    ensures MergedAscending(Merged(ts, gs, gapKey, taskKey), gapKey, taskKey)
    decreases |ts| + |gs|
  {
    var m := Merged(ts, gs, gapKey, taskKey);
    if ts == [] || gs == [] {
    } else if gapKey(gs[0]) < taskKey(ts[0]) {
      MergeAscending(ts, gs[1..], gapKey, taskKey);
      MergeAbove(ts, gs[1..], gapKey, taskKey, gapKey(gs[0]));
      forall i, j | 0 <= i < j < |m|
        ensures KeyOf(m[i], gapKey, taskKey) <= KeyOf(m[j], gapKey, taskKey)
      {
        if i == 0 {
          assert m[j] in m[1..];
        } else {
          assert m[i] == m[1..][i - 1] && m[j] == m[1..][j - 1];
        }
      }
    } else {
      MergeAscending(ts[1..], gs, gapKey, taskKey);
      MergeAbove(ts[1..], gs, gapKey, taskKey, taskKey(ts[0]));
      forall i, j | 0 <= i < j < |m|
        ensures KeyOf(m[i], gapKey, taskKey) <= KeyOf(m[j], gapKey, taskKey)
      {
        if i == 0 {
          assert m[j] in m[1..];
        } else {
          assert m[i] == m[1..][i - 1] && m[j] == m[1..][j - 1];
        }
      }
    }
  }
}
