/**
 * The backend's project records and the two operations that walk the
 * project forest: XP propagation to every ancestor
 * (update_project_xp in backend/utils/xp.py) and cascading deletion with
 * rollback (delete_project in backend/api/projects.py).
 *
 * The database table of projects is the `projects` map of a `Store`
 * object; the methods update it in place as the SQLAlchemy session does.
 */
module ProjectStore {
  import opened Wrappers
  import opened Hierarchy
  import Xp

  /** A row of the projects table (backend/models/project.py). */
  datatype Project = Project(
    id: Id,
    name: string,
    currentXp: int,
    currentLevel: int,
    nextLevelXp: int,
    parent: Option<Id>,
    completed: bool)

  /** The parent links of a table of projects. */
  function LinksOf(projects: map<Id, Project>): (links: Links)
    ensures links.Keys == projects.Keys
    ensures forall id :: id in links ==> links[id] == projects[id].parent
  {
    map id | id in projects :: projects[id].parent
  }

  /**
   * A project after it received `delta` XP: the XP grows by exactly
   * `delta`, the level is recomputed from the new total and the threshold
   * from the new level; nothing else changes.
   */
  function Gain(p: Project, delta: int): (q: Project)
    requires p.currentXp + delta >= 0
    ensures q.currentXp == p.currentXp + delta
    ensures 100 * q.currentLevel * q.currentLevel <= q.currentXp < q.nextLevelXp
    ensures q.nextLevelXp == 100 * (q.currentLevel + 1) * (q.currentLevel + 1)
    ensures q.currentLevel >= 0
    ensures q.(currentXp := p.currentXp, currentLevel := p.currentLevel, nextLevelXp := p.nextLevelXp) == p
  {
    var xp := p.currentXp + delta;
    var level := Xp.LevelFromXp(xp);
    p.(currentXp := xp, currentLevel := level, nextLevelXp := Xp.NextLevelXp(level))
  }

  /** get_projects: the projects that are not completed, unchanged. */
  function ActiveProjects(projects: map<Id, Project>): (active: map<Id, Project>)
    ensures forall id :: id in active <==> id in projects && !projects[id].completed
    ensures forall id :: id in active ==> active[id] == projects[id]
  {
    map id | id in projects && !projects[id].completed :: projects[id]
  }

  /** Some member of `roots` is `x` or an ancestor of `x`. */
  ghost predicate BelowSome(links: Links, rank: map<Id, nat>, x: Id, roots: set<Id>)
    requires RankedBy(links, rank)
  {
    exists r :: r in roots && Reaches(links, rank, x, r)
  }

  /**
   * An id that names no project and no project's parent has an empty
   * subtree, so deleting it (DeleteProject) succeeds and removes nothing.
   */
  lemma UnknownLeafSubtreeEmpty(projects: map<Id, Project>, rank: map<Id, nat>, id: Id)
    requires RankedBy(LinksOf(projects), rank)
    requires id !in projects && ChildrenOf(LinksOf(projects), id) == {}
    ensures Subtree(LinksOf(projects), rank, id) == {}
  {
    if Subtree(LinksOf(projects), rank, id) != {} {
      var x :| x in Subtree(LinksOf(projects), rank, id);
      var child := ProperDescendantHasChildAncestor(LinksOf(projects), rank, x, id);
      assert false;
    }
  }

  /** Every child in `order` comes before its parent: a post-order of deletions. */
  ghost predicate ChildrenFirst(links: Links, order: seq<Id>) {
    forall i, y :: 0 <= i < |order| && y in links && links[y] == Some(order[i]) ==> y in order[..i]
  }

  class Store {
    /** The projects table, keyed by id. */
    var projects: map<Id, Project>
    /** Witness that the parent links form a forest (see module Hierarchy). */
    ghost var rank: map<Id, nat>
    /** An upper bound of the ranks, for the downward walk of a deletion. */
    ghost var bound: nat

    ghost predicate Valid()
      reads this
    {
      && RankedBy(LinksOf(projects), rank)
      && (forall k :: k in rank ==> rank[k] < bound)
    }

    ghost function DownMeasure(id: Id): nat
      reads this
      requires Valid()
    {
      if id in rank then bound - rank[id] else bound + 1
    }

    constructor (initial: map<Id, Project>, ghost rank0: map<Id, nat>, ghost bound0: nat)
      requires RankedBy(LinksOf(initial), rank0)
      requires forall k :: k in rank0 ==> rank0[k] < bound0
      ensures Valid() && projects == initial && rank == rank0 && bound == bound0
    {
      projects, rank, bound := initial, rank0, bound0;
    }

    /**
     * update_project_xp: the project and each of its ancestors gain exactly
     * `xpToAdd`, with level and threshold recomputed; an unknown id changes
     * nothing. The square root in the level needs a non-negative total.
     */
    method ApplyXp(projectId: Id, xpToAdd: int)
      requires Valid()
      requires forall q :: q in projects && Reaches(LinksOf(projects), rank, projectId, q) ==>
                 projects[q].currentXp + xpToAdd >= 0
      modifies this
      decreases UpMeasure(rank, projectId)
      ensures Valid() && rank == old(rank) && bound == old(bound)
      ensures projects.Keys == old(projects).Keys
      ensures forall q :: q in projects ==>
                projects[q] == if Reaches(LinksOf(old(projects)), rank, projectId, q)
                               then Gain(old(projects)[q], xpToAdd)
                               else old(projects)[q]
    {
      if projectId !in projects {
        return;
      }
      ghost var links := LinksOf(projects);
      var project := projects[projectId];
      projects := projects[projectId := Gain(project, xpToAdd)];
      assert LinksOf(projects) == links;
      if project.parent.Some? {
        var parentId := project.parent.value;
        ghost var mid := projects;
        forall q | q in projects && Reaches(links, rank, parentId, q)
          ensures q != projectId && projects[q].currentXp + xpToAdd >= 0
        {
          if q == projectId {
            ReachesAntisymmetric(links, rank, parentId, projectId);
          }
        }
        ApplyXp(parentId, xpToAdd);
        forall q | q in projects
          ensures projects[q] == if Reaches(links, rank, projectId, q)
                                 then Gain(old(projects)[q], xpToAdd)
                                 else old(projects)[q]
        {
          if q == projectId && Reaches(links, rank, parentId, q) {
            ReachesAntisymmetric(links, rank, parentId, projectId);
          }
        }
      }
    }

    /**
     * delete_project: the project and every transitive descendant are
     * deleted, children before parents, and committed; if the database
     * refuses to remove any of them (a member of `faulty`), everything is
     * rolled back and the table is as before.
     */
    method DeleteProject(projectId: Id, faulty: set<Id>) returns (ok: bool)
      requires Valid()
      modifies this
      ensures Valid() && rank == old(rank) && bound == old(bound)
      ensures ok <==> Subtree(LinksOf(old(projects)), rank, projectId) !! faulty
      ensures ok ==> projects == old(projects) - Subtree(LinksOf(old(projects)), rank, projectId)
      ensures !ok ==> projects == old(projects)
    {
      var snapshot := projects;
      ghost var order;
      ok, order := DeleteDescendants(projectId, faulty);
      if !ok {
        projects := snapshot;  // db.rollback()
      }
    }

    /**
     * delete_project_and_descendants: each child's subtree first, then the
     * project itself if it exists. `order` is the sequence of deletions.
     */
    method DeleteDescendants(projectId: Id, faulty: set<Id>) returns (ok: bool, ghost order: seq<Id>)
      requires Valid()
      modifies this
      decreases DownMeasure(projectId)
      ensures Valid() && rank == old(rank) && bound == old(bound)
      ensures ok <==> Subtree(LinksOf(old(projects)), rank, projectId) !! faulty
      ensures ok ==> projects == old(projects) - Subtree(LinksOf(old(projects)), rank, projectId)
      ensures ok ==> forall x :: x in order <==> x in Subtree(LinksOf(old(projects)), rank, projectId)
      ensures ok ==> ChildrenFirst(LinksOf(old(projects)), order)
    {
      ghost var store0 := projects;
      ghost var links0 := LinksOf(projects);
      var children := ChildrenOf(LinksOf(projects), projectId);
      var pending := children;
      ghost var done: set<Id> := {};
      order := [];
      while pending != {}
        invariant pending <= children && done == children - pending
        invariant Valid() && rank == old(rank) && bound == old(bound)
        invariant projects == store0 - Covered(links0, done)
        invariant forall x :: x in order <==> x in Covered(links0, done)
        invariant Covered(links0, done) !! faulty
        invariant ChildrenFirst(links0, order)
        decreases pending
      {
        var c :| c in pending;
        ghost var before := projects;
        KeptSubtree(store0, done, projectId, c);
        var okChild, orderChild := DeleteDescendants(c, faulty);
        if !okChild {
          SubtreeOfChildInside(links0, rank, projectId, c);
          return false, order;
        }
        LoopStep(store0, before, projects, done, c, order, orderChild, faulty);
        order := order + orderChild;
        pending := pending - {c};
        done := done + {c};
      }
      ok := true;
      if projectId in projects {
        if projectId in faulty {
          SubtreeSplit(links0, rank, projectId);
          return false, order;
        }
        Finish(store0, projects, order, projectId, children);
        projects := projects - {projectId};
        order := order + [projectId];
      } else {
        SubtreeSplit(links0, rank, projectId);
      }
    }

    /** One pass of the loop over the children: the child's subtree joins the deleted part. */
    lemma LoopStep(store0: map<Id, Project>, before: map<Id, Project>, after: map<Id, Project>,
                   done: set<Id>, c: Id, order: seq<Id>, orderChild: seq<Id>, faulty: set<Id>)
      requires RankedBy(LinksOf(store0), rank) && RankedBy(LinksOf(before), rank)
      requires before == store0 - Covered(LinksOf(store0), done)
      requires Subtree(LinksOf(before), rank, c) == Subtree(LinksOf(store0), rank, c)
      requires after == before - Subtree(LinksOf(before), rank, c)
      requires forall x :: x in order <==> x in Covered(LinksOf(store0), done)
      requires forall x :: x in orderChild <==> x in Subtree(LinksOf(before), rank, c)
      requires Covered(LinksOf(store0), done) !! faulty
      requires Subtree(LinksOf(before), rank, c) !! faulty
      requires ChildrenFirst(LinksOf(store0), order)
      requires ChildrenFirst(LinksOf(before), orderChild)
      ensures after == store0 - Covered(LinksOf(store0), done + {c})
      ensures forall x :: x in order + orderChild <==> x in Covered(LinksOf(store0), done + {c})
      ensures Covered(LinksOf(store0), done + {c}) !! faulty
      ensures ChildrenFirst(LinksOf(store0), order + orderChild)
    {
      var links0 := LinksOf(store0);
      CoveredGrows(links0, done, c);
      assert SubLinks(LinksOf(before), links0);
      ChildrenFirstAppend(links0, before, order, orderChild, c);
    }

    /** After the loop: removing the project itself completes its subtree. */
    lemma Finish(store0: map<Id, Project>, now: map<Id, Project>, order: seq<Id>, projectId: Id, children: set<Id>)
      requires RankedBy(LinksOf(store0), rank)
      requires children == ChildrenOf(LinksOf(store0), projectId)
      requires now == store0 - Covered(LinksOf(store0), children)
      requires projectId in now
      requires forall x :: x in order <==> x in Covered(LinksOf(store0), children)
      requires ChildrenFirst(LinksOf(store0), order)
      ensures now - {projectId} == store0 - Subtree(LinksOf(store0), rank, projectId)
      ensures forall x :: x in order + [projectId] <==> x in Subtree(LinksOf(store0), rank, projectId)
      ensures ChildrenFirst(LinksOf(store0), order + [projectId])
    {
      SubtreeSplit(LinksOf(store0), rank, projectId);
      ChildrenFirstLast(LinksOf(store0), order, projectId, children);
    }

    /** The projects below some member of `done`, in the table as it was. */
    ghost function Covered(links: Links, done: set<Id>): set<Id>
      reads this
      requires RankedBy(links, rank)
    {
      set x | x in links && BelowSome(links, rank, x, done)
    }

    lemma KeptSubtree(store0: map<Id, Project>, done: set<Id>, parent: Id, c: Id)
      requires Valid() && RankedBy(LinksOf(store0), rank)
      requires c in ChildrenOf(LinksOf(store0), parent) && c !in done
      requires done <= ChildrenOf(LinksOf(store0), parent)
      requires projects == store0 - Covered(LinksOf(store0), done)
      ensures Subtree(LinksOf(projects), rank, c) == Subtree(LinksOf(store0), rank, c)
    {
      var links0 := LinksOf(store0);
      forall x | x in Subtree(links0, rank, c) ensures x in projects {
        if BelowSome(links0, rank, x, done) {
          var d :| d in done && Reaches(links0, rank, x, d);
          SiblingSubtreesDisjoint(links0, rank, parent, c, d, x);
        }
      }
      SubtreeKept(LinksOf(projects), links0, rank, c);
    }

    lemma CoveredGrows(links: Links, done: set<Id>, c: Id)
      requires RankedBy(links, rank)
      ensures Covered(links, done + {c}) == Covered(links, done) + Subtree(links, rank, c)
    {
    }

    lemma ChildrenFirstAppend(links0: Links, before: map<Id, Project>, order: seq<Id>, orderChild: seq<Id>, c: Id)
      requires RankedBy(links0, rank) && RankedBy(LinksOf(before), rank)
      requires SubLinks(LinksOf(before), links0)
      requires Subtree(links0, rank, c) <= before.Keys
      requires ChildrenFirst(links0, order)
      requires forall x :: x in orderChild <==> x in Subtree(links0, rank, c)
      requires ChildrenFirst(LinksOf(before), orderChild)
      ensures ChildrenFirst(links0, order + orderChild)
    {
      var all := order + orderChild;
      forall i, y | 0 <= i < |all| && y in links0 && links0[y] == Some(all[i])
        ensures y in all[..i]
      {
        if i < |order| {
          assert all[..i] == order[..i];
        } else {
          var j := i - |order|;
          assert all[i] == orderChild[j];
          ChildStaysInSubtree(links0, before, orderChild[j], y, c);
          assert y in orderChild[..j];
          assert all[..i] == order + orderChild[..j];
        }
      }
    }

    /** A child of a member of `c`'s subtree is in that subtree, hence still in `before`. */
    lemma ChildStaysInSubtree(links0: Links, before: map<Id, Project>, x: Id, y: Id, c: Id)
      requires RankedBy(links0, rank) && SubLinks(LinksOf(before), links0)
      requires Subtree(links0, rank, c) <= before.Keys
      requires x in Subtree(links0, rank, c)
      requires y in links0 && links0[y] == Some(x)
      ensures y in before && LinksOf(before)[y] == Some(x)
    {
      assert Reaches(links0, rank, y, x);
      ReachesTransitive(links0, rank, y, x, c);
      assert y in Subtree(links0, rank, c);
    }

    lemma ChildrenFirstLast(links0: Links, order: seq<Id>, projectId: Id, children: set<Id>)
      requires RankedBy(links0, rank)
      requires children == ChildrenOf(links0, projectId)
      requires forall x :: x in order <==> x in Covered(links0, children)
      requires ChildrenFirst(links0, order)
      ensures ChildrenFirst(links0, order + [projectId])
    {
      var all := order + [projectId];
      forall i, y | 0 <= i < |all| && y in links0 && links0[y] == Some(all[i])
        ensures y in all[..i]
      {
        if i < |order| {
          assert all[..i] == order[..i];
        } else {
          assert y in children;
          assert Reaches(links0, rank, y, y);
          assert y in Covered(links0, children);
          assert all[..i] == order;
        }
      }
    }

    lemma SubtreeOfChildInside(links: Links, rank0: map<Id, nat>, parent: Id, c: Id)
      requires RankedBy(links, rank0)
      requires c in ChildrenOf(links, parent)
      ensures Subtree(links, rank0, c) <= Subtree(links, rank0, parent)
    {
      forall x | x in Subtree(links, rank0, c) ensures x in Subtree(links, rank0, parent) {
        assert Reaches(links, rank0, c, parent);
        ReachesTransitive(links, rank0, x, c, parent);
      }
    }

    /** A subtree is its root, if it exists, and the subtrees of the root's children. */
    lemma SubtreeSplit(links: Links, rank0: map<Id, nat>, id: Id)
      requires RankedBy(links, rank0) && rank0 == rank
      ensures Subtree(links, rank0, id)
           == Covered(links, ChildrenOf(links, id)) + (if id in links then {id} else {})
    {
      var children := ChildrenOf(links, id);
      forall x | x in Subtree(links, rank0, id)
        ensures x in Covered(links, children) + (if id in links then {id} else {})
      {
        if x != id {
          var child := ProperDescendantHasChildAncestor(links, rank0, x, id);
        }
      }
      forall x | x in Covered(links, children) ensures x in Subtree(links, rank0, id) {
        var d :| d in children && Reaches(links, rank0, x, d);
        SubtreeOfChildInside(links, rank0, id, d);
      }
    }
  }
}
