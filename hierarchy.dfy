/**
 * The project forest. Every project may name a parent project; the
 * backend walks these links upwards to propagate XP and downwards to
 * delete a project together with its descendants, and the frontend walks
 * them downwards to collect descendant ids.
 *
 * Nothing in the system rejects a cycle; the walks terminate only on an
 * acyclic forest. The model makes that assumption explicit: a `rank`
 * (a depth) that strictly grows from every parent to its child is the
 * witness that the links form a forest.
 */
module Hierarchy {
  import opened Wrappers

  type Id = string

  /** Parent links: a project id maps to its parent id, if it has one. */
  type Links = map<Id, Option<Id>>

  /** `rank` witnesses acyclicity: a parent that has a rank ranks strictly below its child. */
  ghost predicate RankedBy(links: Links, rank: map<Id, nat>) {
    forall c :: c in links ==>
      c in rank && (links[c].Some? && links[c].value in rank ==> rank[links[c].value] < rank[c])
  }

  ghost function UpMeasure(rank: map<Id, nat>, x: Id): nat {
    if x in rank then rank[x] + 1 else 0
  }

  /**
   * `y` is `x` itself or an ancestor of `x`: following parent links from `x`
   * through projects that exist reaches `y`.
   */
  ghost predicate Reaches(links: Links, rank: map<Id, nat>, x: Id, y: Id)
    requires RankedBy(links, rank)
    decreases UpMeasure(rank, x)
  {
    x == y || (x in links && links[x].Some? && Reaches(links, rank, links[x].value, y))
  }

  /** The existing projects that are `id` or descend from it. */
  ghost function Subtree(links: Links, rank: map<Id, nat>, id: Id): set<Id>
    requires RankedBy(links, rank)
  {
    set x | x in links && Reaches(links, rank, x, id)
  }

  /** The existing projects whose parent link names `id`. */
  function ChildrenOf(links: Links, id: Id): (children: set<Id>)
    ensures forall c :: c in children <==> c in links && links[c] == Some(id)
  {
    set c | c in links && links[c] == Some(id)
  }

  /** `small` keeps some of the projects of `big` and changes none of their links. */
  ghost predicate SubLinks(small: Links, big: Links) {
    forall x :: x in small ==> x in big && small[x] == big[x]
  }

  // ---------------------------------------------------------------------------
  // Lemmas
  // ---------------------------------------------------------------------------

  lemma RankedBySubLinks(small: Links, big: Links, rank: map<Id, nat>)
    requires RankedBy(big, rank) && SubLinks(small, big)
    ensures RankedBy(small, rank)
  {
  }

  lemma {:induction false} ReachesTransitive(links: Links, rank: map<Id, nat>, x: Id, y: Id, z: Id)
    requires RankedBy(links, rank)
    requires Reaches(links, rank, x, y) && Reaches(links, rank, y, z)
    ensures Reaches(links, rank, x, z)
    decreases UpMeasure(rank, x)
  {
    if x != y {
      ReachesTransitive(links, rank, links[x].value, y, z);
    }
  }

  /** Going strictly up the forest strictly lowers the rank. */
  lemma {:induction false} ReachesLowersRank(links: Links, rank: map<Id, nat>, x: Id, y: Id)
    requires RankedBy(links, rank)
    requires Reaches(links, rank, x, y) && x != y && y in rank
    ensures x in rank && rank[y] < rank[x]
    decreases UpMeasure(rank, x)
  {
    var p := links[x].value;
    if p != y {
      if p in links {
        ReachesLowersRank(links, rank, p, y);
      }
    }
  }

  /** No project is a proper ancestor of its own ancestor: the links hold no cycle. */
  lemma ReachesAntisymmetric(links: Links, rank: map<Id, nat>, x: Id, y: Id)
    requires RankedBy(links, rank)
    requires Reaches(links, rank, x, y) && Reaches(links, rank, y, x)
    ensures x == y
  {
    if x != y {
      ReachesLowersRank(links, rank, x, y);
      ReachesLowersRank(links, rank, y, x);
    }
  }

  /** The ancestors of a project form a chain: any two of them are comparable. */
  lemma {:induction false} AncestorsComparable(links: Links, rank: map<Id, nat>, x: Id, a: Id, b: Id)
    requires RankedBy(links, rank)
    requires Reaches(links, rank, x, a) && Reaches(links, rank, x, b)
    ensures Reaches(links, rank, a, b) || Reaches(links, rank, b, a)
    decreases UpMeasure(rank, x)
  {
    if x != a && x != b {
      AncestorsComparable(links, rank, links[x].value, a, b);
    }
  }

  /** Of two distinct children of one parent, neither is below the other. */
  lemma SiblingsIncomparable(links: Links, rank: map<Id, nat>, parent: Id, c: Id, d: Id)
    requires RankedBy(links, rank)
    requires c in ChildrenOf(links, parent) && d in ChildrenOf(links, parent) && c != d
    ensures !Reaches(links, rank, c, d)
  {
    if Reaches(links, rank, c, d) {
      // c lies below d, so parent (c's parent) lies at or below d, while d is parent's child.
      assert Reaches(links, rank, parent, d);
      assert Reaches(links, rank, d, parent);
      ReachesAntisymmetric(links, rank, parent, d);
      assert false;
    }
  }

  /** Two distinct children of one parent have disjoint subtrees. */
  lemma SiblingSubtreesDisjoint(links: Links, rank: map<Id, nat>, parent: Id, c: Id, d: Id, x: Id)
    requires RankedBy(links, rank)
    requires c in ChildrenOf(links, parent) && d in ChildrenOf(links, parent) && c != d
    requires Reaches(links, rank, x, c)
    ensures !Reaches(links, rank, x, d)
  {
    if Reaches(links, rank, x, d) {
      AncestorsComparable(links, rank, x, c, d);
      SiblingsIncomparable(links, rank, parent, c, d);
      SiblingsIncomparable(links, rank, parent, d, c);
      assert false;
    }
  }

  /** A proper descendant of `id` descends from (or is) one of `id`'s children. */
  lemma {:induction false} ProperDescendantHasChildAncestor(links: Links, rank: map<Id, nat>, x: Id, id: Id)
    returns (child: Id)
    requires RankedBy(links, rank)
    requires Reaches(links, rank, x, id) && x != id
    ensures child in ChildrenOf(links, id) && Reaches(links, rank, x, child)
    decreases UpMeasure(rank, x)
  {
    var p := links[x].value;
    if p == id {
      child := x;
    } else {
      child := ProperDescendantHasChildAncestor(links, rank, p, id);
    }
  }

  /** Following links in a sub-forest follows them in the whole forest too. */
  lemma {:induction false} ReachesInBig(small: Links, big: Links, rank: map<Id, nat>, x: Id, y: Id)
    requires RankedBy(big, rank) && SubLinks(small, big)
    requires RankedBy(small, rank) && Reaches(small, rank, x, y)
    ensures Reaches(big, rank, x, y)
    decreases UpMeasure(rank, x)
  {
    if x != y {
      ReachesInBig(small, big, rank, small[x].value, y);
    }
  }

  /** A sub-forest that keeps every member of `id`'s subtree keeps the whole path from each of them. */
  lemma {:induction false} ReachesInSmall(small: Links, big: Links, rank: map<Id, nat>, x: Id, y: Id)
    requires RankedBy(big, rank) && SubLinks(small, big) && RankedBy(small, rank)
    requires Subtree(big, rank, y) <= small.Keys
    requires Reaches(big, rank, x, y)
    ensures Reaches(small, rank, x, y)
    decreases UpMeasure(rank, x)
  {
    if x != y {
      var p := big[x].value;
      assert x in Subtree(big, rank, y);
      ReachesInSmall(small, big, rank, p, y);
    }
  }

  /** Such a sub-forest has the same subtree below `y`. */
  lemma SubtreeKept(small: Links, big: Links, rank: map<Id, nat>, y: Id)
    requires RankedBy(big, rank) && SubLinks(small, big)
    requires Subtree(big, rank, y) <= small.Keys
    ensures RankedBy(small, rank)
    ensures Subtree(small, rank, y) == Subtree(big, rank, y)
  {
    RankedBySubLinks(small, big, rank);
    forall x | x in Subtree(small, rank, y) ensures x in Subtree(big, rank, y) {
      ReachesInBig(small, big, rank, x, y);
    }
    forall x | x in Subtree(big, rank, y) ensures x in Subtree(small, rank, y) {
      ReachesInSmall(small, big, rank, x, y);
    }
  }
}
