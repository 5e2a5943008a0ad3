/**
 * The project-tree queries of the planning page (projectUtils.js): the
 * projects shown in one column, the ids below a project, and the XP at
 * which a level starts.
 */
module ProjectUtils {
  import opened Wrappers
  import opened Hierarchy
  import Sorting
  import Xp

  /** A project as the frontend receives it. */
  datatype ProjectItem = ProjectItem(
    id: Id,
    parentId: Option<Id>,
    completed: bool,
    currentLevel: int,
    currentXp: int)

  /** A JavaScript-truthy id: present and not the empty string. */
  predicate Truthy(id: Option<Id>) {
    id.Some? && id.value != ""
  }

  // ---------------------------------------------------------------------------
  // getColumnProjects
  // ---------------------------------------------------------------------------

  /** `parentId ? p.parent_id === parentId : !p.parent_id` */
  function InColumn(parentId: Option<Id>): ProjectItem -> bool {
    (p: ProjectItem) => if Truthy(parentId) then p.parentId == parentId else !Truthy(p.parentId)
  }

  /** `!p.completed` */
  function NotCompleted(): ProjectItem -> bool {
    (p: ProjectItem) => !p.completed
  }

  /** Both filters at once. */
  function ColumnMember(parentId: Option<Id>): ProjectItem -> bool {
    (p: ProjectItem) => InColumn(parentId)(p) && !p.completed
  }

  /** Level descending, then XP descending. */
  function ColumnKey(): ProjectItem -> Sorting.Key {
    (p: ProjectItem) => Sorting.Key(-p.currentLevel, -p.currentXp)
  }

  /** Two filters in a row keep what both predicates accept. */
  lemma {:induction false} FilterTwice<T(!new)>(s: seq<T>, p: T -> bool, q: T -> bool, both: T -> bool)
    requires forall x :: both(x) == (p(x) && q(x))
    ensures Sorting.Filter(Sorting.Filter(s, p), q) == Sorting.Filter(s, both)
  {
    if s != [] {
      FilterTwice(s[1..], p, q, both);
      var tail := Sorting.Filter(s[1..], p);
      if p(s[0]) {
        assert Sorting.Filter(s, p) == [s[0]] + tail;
        assert ([s[0]] + tail)[0] == s[0] && ([s[0]] + tail)[1..] == tail;
        assert Sorting.Filter([s[0]] + tail, q)
            == (if q(s[0]) then [s[0]] else []) + Sorting.Filter(tail, q);
      } else {
        assert Sorting.Filter(s, p) == tail;
      }
    }
  }

  /**
   * getColumnProjects: the projects of the column under `parentId` (the
   * root projects when it is falsy) that are not completed, each as often
   * as in the input, by level and then XP, highest first.
   */
  function GetColumnProjects(projects: seq<ProjectItem>, parentId: Option<Id>): (r: seq<ProjectItem>)
    ensures multiset(r) == multiset(Sorting.Filter(projects, ColumnMember(parentId)))
    ensures forall i :: 0 <= i < |r| ==> r[i] in projects && InColumn(parentId)(r[i]) && !r[i].completed
    ensures forall i :: 0 <= i < |projects| && InColumn(parentId)(projects[i]) && !projects[i].completed ==>
              projects[i] in r
    ensures forall i, j :: 0 <= i < j < |r| ==>
              r[i].currentLevel > r[j].currentLevel
              || (r[i].currentLevel == r[j].currentLevel && r[i].currentXp >= r[j].currentXp)
  {
    var members := Sorting.Filter(Sorting.Filter(projects, InColumn(parentId)), NotCompleted());
    FilterTwice(projects, InColumn(parentId), NotCompleted(), ColumnMember(parentId));
    Sorting.SortedFilter(projects, ColumnMember(parentId), ColumnKey());
    Sorting.SortBy(members, ColumnKey())
  }

  /** Projects with the same level and XP keep their input order. */
  lemma ColumnStable(projects: seq<ProjectItem>, parentId: Option<Id>, k: Sorting.Key)
    ensures Sorting.WithKey(GetColumnProjects(projects, parentId), ColumnKey(), k)
         == Sorting.WithKey(Sorting.Filter(projects, ColumnMember(parentId)), ColumnKey(), k)
  {
    var members := Sorting.Filter(Sorting.Filter(projects, InColumn(parentId)), NotCompleted());
    FilterTwice(projects, InColumn(parentId), NotCompleted(), ColumnMember(parentId));
    Sorting.SortByStable(members, ColumnKey(), k);
  }

  // ---------------------------------------------------------------------------
  // getDescendantProjectIds
  // ---------------------------------------------------------------------------

  /** No two projects share an id (ids are primary keys). */
  ghost predicate UniqueIds(projects: seq<ProjectItem>) {
    forall i, j :: 0 <= i < j < |projects| ==> projects[i].id != projects[j].id
  }

  /** No element occurs twice. */
  ghost predicate NoDuplicates(s: seq<Id>) {
    forall i, j :: 0 <= i < j < |s| ==> s[i] != s[j]
  }

  /** The parent links of a project list. */
  function LinksOfList(projects: seq<ProjectItem>): (links: Links)
    ensures forall i :: 0 <= i < |projects| ==> projects[i].id in links
    ensures forall x :: x in links ==> exists i :: 0 <= i < |projects| && projects[i].id == x && links[x] == projects[i].parentId
  {
    if projects == [] then map[]
    else
      var rest := LinksOfList(projects[1..]);
      assert forall i :: 1 <= i < |projects| ==> projects[i] == projects[1..][i - 1];
      rest[projects[0].id := projects[0].parentId]
  }

  lemma LinkOf(projects: seq<ProjectItem>, i: int)
    requires UniqueIds(projects) && 0 <= i < |projects|
    ensures LinksOfList(projects)[projects[i].id] == projects[i].parentId
  {
  }

  /**
   * The projects form a forest: ids are unique and `rank`, bounded by
   * `bound`, grows strictly from every parent to its child.
   */
  ghost predicate Forest(projects: seq<ProjectItem>, rank: map<Id, nat>, bound: nat) {
    && UniqueIds(projects)
    && RankedBy(LinksOfList(projects), rank)
    && forall x :: x in rank ==> rank[x] <= bound
  }

  /** A measure that shrinks from a parent to its children. */
  ghost function DownMeasure(rank: map<Id, nat>, bound: nat, id: Id): nat {
    if id in rank then (if rank[id] <= bound then bound - rank[id] + 1 else 0) else bound + 2
  }

  lemma ChildMeasure(projects: seq<ProjectItem>, rank: map<Id, nat>, bound: nat, parentId: Id, c: Id)
    requires Forest(projects, rank, bound)
    requires c in ChildrenOf(LinksOfList(projects), parentId)
    ensures DownMeasure(rank, bound, c) < DownMeasure(rank, bound, parentId)
  {
    var links := LinksOfList(projects);
    assert c in links && links[c] == Some(parentId);
    assert c in rank;
  }

  /** `projects.filter(p => p.parent_id === parentId).map(p => p.id)` */
  function DirectIds(projects: seq<ProjectItem>, parentId: Id): (r: seq<Id>)
    ensures forall k :: 0 <= k < |r| ==> exists i :: 0 <= i < |projects| && projects[i].id == r[k] && projects[i].parentId == Some(parentId)
    ensures forall i :: 0 <= i < |projects| && projects[i].parentId == Some(parentId) ==> projects[i].id in r
  {
    if projects == [] then []
    else
      var rest := DirectIds(projects[1..], parentId);
      var head := if projects[0].parentId == Some(parentId) then [projects[0].id] else [];
      assert forall i :: 1 <= i < |projects| ==> projects[i] == projects[1..][i - 1];
      assert forall k :: 0 <= k < |rest| ==>
               exists i :: 0 <= i < |projects| && projects[i].id == rest[k] && projects[i].parentId == Some(parentId) by {
        forall k | 0 <= k < |rest|
          ensures exists i :: 0 <= i < |projects| && projects[i].id == rest[k] && projects[i].parentId == Some(parentId)
        {
          var i :| 0 <= i < |projects[1..]| && projects[1..][i].id == rest[k] && projects[1..][i].parentId == Some(parentId);
          assert projects[i + 1] == projects[1..][i];
        }
      }
      head + rest
  }

  lemma DirectAreChildren(projects: seq<ProjectItem>, parentId: Id)
    requires UniqueIds(projects)
    ensures forall x :: x in DirectIds(projects, parentId) <==> x in ChildrenOf(LinksOfList(projects), parentId)
  {
    var links := LinksOfList(projects);
    var direct := DirectIds(projects, parentId);
    forall x ensures x in direct <==> x in ChildrenOf(links, parentId) {
      if x in direct {
        var k :| 0 <= k < |direct| && direct[k] == x;
        var i :| 0 <= i < |projects| && projects[i].id == x && projects[i].parentId == Some(parentId);
        LinkOf(projects, i);
      }
      if x in ChildrenOf(links, parentId) {
        var i :| 0 <= i < |projects| && projects[i].id == x && links[x] == projects[i].parentId;
      }
    }
  }

  lemma {:induction false} DirectNoDuplicates(projects: seq<ProjectItem>, parentId: Id)
    requires UniqueIds(projects)
    ensures NoDuplicates(DirectIds(projects, parentId))
  {
    if projects != [] {
      var rest := DirectIds(projects[1..], parentId);
      DirectNoDuplicates(projects[1..], parentId);
      if projects[0].parentId == Some(parentId) {
        forall k | 0 <= k < |rest| ensures rest[k] != projects[0].id {
          var i :| 0 <= i < |projects[1..]| && projects[1..][i].id == rest[k];
          assert projects[i + 1].id == rest[k];
        }
      }
    }
  }

  /**
   * getDescendantProjectIds: the direct children of `parentId`, followed
   * by the descendants of each child in turn.
   */
  function GetDescendantProjectIds(projects: seq<ProjectItem>, parentId: Id, ghost rank: map<Id, nat>, ghost bound: nat): (r: seq<Id>)
    requires Forest(projects, rank, bound)
    ensures |DirectIds(projects, parentId)| <= |r| && r[..|DirectIds(projects, parentId)|] == DirectIds(projects, parentId)
    decreases DownMeasure(rank, bound, parentId), 1
  {
    var direct := DirectIds(projects, parentId);
    DirectAreChildren(projects, parentId);
    direct + DescendantsOfEach(projects, direct, parentId, rank, bound)
  }

  /** The loop `for (const id of direct) all = all.concat(getDescendantProjectIds(projects, id))`. */
  function DescendantsOfEach(projects: seq<ProjectItem>, ids: seq<Id>, ghost parentId: Id,
                             ghost rank: map<Id, nat>, ghost bound: nat): seq<Id>
    requires Forest(projects, rank, bound)
    requires forall x :: x in ids ==> x in ChildrenOf(LinksOfList(projects), parentId)
    decreases DownMeasure(rank, bound, parentId), 0, |ids|
  {
    if ids == [] then []
    else
      assert ids[0] in ids;
      ChildMeasure(projects, rank, bound, parentId, ids[0]);
      GetDescendantProjectIds(projects, ids[0], rank, bound)
      + DescendantsOfEach(projects, ids[1..], parentId, rank, bound)
  }

  /** A child is a proper descendant of its parent. */
  lemma ChildBelow(projects: seq<ProjectItem>, rank: map<Id, nat>, bound: nat, parentId: Id, c: Id)
    requires Forest(projects, rank, bound)
    requires c in ChildrenOf(LinksOfList(projects), parentId)
    ensures c != parentId && Reaches(LinksOfList(projects), rank, c, parentId)
  {
    var links := LinksOfList(projects);
    assert Reaches(links, rank, parentId, parentId);
  }

  /**
   * getDescendantProjectIds returns exactly the projects strictly below
   * `parentId`.
   */
  lemma {:induction false} DescendantsExact(projects: seq<ProjectItem>, parentId: Id, rank: map<Id, nat>, bound: nat)
    requires Forest(projects, rank, bound)
    ensures forall x :: x in GetDescendantProjectIds(projects, parentId, rank, bound) <==>
              x in LinksOfList(projects) && x != parentId && Reaches(LinksOfList(projects), rank, x, parentId)
    decreases DownMeasure(rank, bound, parentId), 1
  {
    var links := LinksOfList(projects);
    var direct := DirectIds(projects, parentId);
    DirectAreChildren(projects, parentId);
    var rest := DescendantsOfEach(projects, direct, parentId, rank, bound);
    EachExact(projects, direct, parentId, rank, bound);
    forall x ensures x in direct + rest <==> x in links && x != parentId && Reaches(links, rank, x, parentId) {
      if x in direct {
        ChildBelow(projects, rank, bound, parentId, x);
      } else if x in rest {
        assert BelowOneOf(links, rank, x, direct);
        var c :| c in direct && x in links && x != c && Reaches(links, rank, x, c);
        ChildBelow(projects, rank, bound, parentId, c);
        ReachesTransitive(links, rank, x, c, parentId);
        if x == parentId {
          ReachesAntisymmetric(links, rank, c, parentId);
        }
      } else if x in links && x != parentId && Reaches(links, rank, x, parentId) {
        var c := ProperDescendantHasChildAncestor(links, rank, x, parentId);
      }
    }
  }

  /** `x` lies strictly below one of `ids`. */
  ghost predicate BelowOneOf(links: Links, rank: map<Id, nat>, x: Id, ids: seq<Id>)
    requires RankedBy(links, rank)
  {
    exists c :: c in ids && x in links && x != c && Reaches(links, rank, x, c)
  }

  lemma {:induction false} EachExact(projects: seq<ProjectItem>, ids: seq<Id>, parentId: Id, rank: map<Id, nat>, bound: nat)
    requires Forest(projects, rank, bound)
    requires forall x :: x in ids ==> x in ChildrenOf(LinksOfList(projects), parentId)
    ensures forall x :: x in DescendantsOfEach(projects, ids, parentId, rank, bound) <==>
              BelowOneOf(LinksOfList(projects), rank, x, ids)
    decreases DownMeasure(rank, bound, parentId), 0, |ids|
  {
    if ids != [] {
      var links := LinksOfList(projects);
      assert ids[0] in ids;
      ChildMeasure(projects, rank, bound, parentId, ids[0]);
      var first := GetDescendantProjectIds(projects, ids[0], rank, bound);
      var others := DescendantsOfEach(projects, ids[1..], parentId, rank, bound);
      assert DescendantsOfEach(projects, ids, parentId, rank, bound) == first + others;
      DescendantsExact(projects, ids[0], rank, bound);
      EachExact(projects, ids[1..], parentId, rank, bound);
      forall x ensures x in first + others <==> BelowOneOf(links, rank, x, ids) {
        if x in first {
          assert ids[0] in ids;
        } else if x in others {
          var c :| c in ids[1..] && x in links && x != c && Reaches(links, rank, x, c);
          assert c in ids;
        }
      }
    }
  }

  lemma NoDuplicatesConcat(a: seq<Id>, b: seq<Id>)
    requires NoDuplicates(a) && NoDuplicates(b)
    requires forall x :: x in a ==> x !in b
    ensures NoDuplicates(a + b)
  {
    forall i, j | 0 <= i < j < |a + b| ensures (a + b)[i] != (a + b)[j] {
      if i < |a| && j >= |a| {
        assert (a + b)[i] in a && (a + b)[j] in b;
      }
    }
  }

  /** getDescendantProjectIds lists no id twice. */
  lemma {:induction false} DescendantsDistinct(projects: seq<ProjectItem>, parentId: Id, rank: map<Id, nat>, bound: nat)
    requires Forest(projects, rank, bound)
    ensures NoDuplicates(GetDescendantProjectIds(projects, parentId, rank, bound))
    decreases DownMeasure(rank, bound, parentId), 1
  {
    var links := LinksOfList(projects);
    var direct := DirectIds(projects, parentId);
    DirectAreChildren(projects, parentId);
    DirectNoDuplicates(projects, parentId);
    var rest := DescendantsOfEach(projects, direct, parentId, rank, bound);
    EachDistinct(projects, direct, parentId, rank, bound);
    EachExact(projects, direct, parentId, rank, bound);
    forall x | x in direct ensures x !in rest {
      if x in rest {
        assert BelowOneOf(links, rank, x, direct);
        var c :| c in direct && x in links && x != c && Reaches(links, rank, x, c);
        SiblingsIncomparable(links, rank, parentId, x, c);
      }
    }
    NoDuplicatesConcat(direct, rest);
  }

  lemma {:induction false} EachDistinct(projects: seq<ProjectItem>, ids: seq<Id>, parentId: Id, rank: map<Id, nat>, bound: nat)
    requires Forest(projects, rank, bound)
    requires forall x :: x in ids ==> x in ChildrenOf(LinksOfList(projects), parentId)
    requires NoDuplicates(ids)
    ensures NoDuplicates(DescendantsOfEach(projects, ids, parentId, rank, bound))
    decreases DownMeasure(rank, bound, parentId), 0, |ids|
  {
    if ids != [] {
      var links := LinksOfList(projects);
      assert ids[0] in ids;
      ChildMeasure(projects, rank, bound, parentId, ids[0]);
      var first := GetDescendantProjectIds(projects, ids[0], rank, bound);
      var others := DescendantsOfEach(projects, ids[1..], parentId, rank, bound);
      DescendantsDistinct(projects, ids[0], rank, bound);
      DescendantsExact(projects, ids[0], rank, bound);
      EachDistinct(projects, ids[1..], parentId, rank, bound);
      EachExact(projects, ids[1..], parentId, rank, bound);
      forall x | x in first ensures x !in others {
        if x in others {
          assert BelowOneOf(links, rank, x, ids[1..]);
          var d :| d in ids[1..] && x in links && x != d && Reaches(links, rank, x, d);
          SiblingSubtreesDisjoint(links, rank, parentId, ids[0], d, x);
        }
      }
      NoDuplicatesConcat(first, others);
    }
  }

  // ---------------------------------------------------------------------------
  // getPrevLevelXP
  // ---------------------------------------------------------------------------

  /** getPrevLevelXP: the XP at which `level` starts. */
  function GetPrevLevelXp(level: int): (start: int)
    ensures level >= 0 ==> start >= 0 && Xp.LevelFromXp(start) == level
  {
    var start := 100 * level * level;
    if level >= 0 then
      Xp.SquareGrows(level);
      Xp.LevelUnique(start, level);
      start
    else start
  }

  /**
   * The start of a level is the threshold stored with the level below it,
   * and a project with exactly that XP is at that level.
   */
  lemma PrevLevelIsThreshold(level: nat)
    ensures GetPrevLevelXp(level) == Xp.NextLevelXp(level - 1)
    ensures Xp.LevelFromXp(GetPrevLevelXp(level)) == level
  {
    Xp.SquareGrows(level);
    Xp.LevelUnique(GetPrevLevelXp(level), level);
  }
}
