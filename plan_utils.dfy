/**
 * The order of the plan column (planUtils.js, sortPlanItems): the items
 * located in the plan, by priority and then by quality letter.
 */
module PlanUtils {
  import opened Wrappers
  import Sorting

  /** A plan item as far as the plan order looks at it. */
  datatype PlanItem = PlanItem(
    id: string,
    columnLocation: string,
    priority: Option<int>,
    taskQuality: Option<string>)

  /** `qualityOrder[q] || 5`: A to D rank 1 to 4, anything else 5. */
  function QualityOrder(q: Option<string>): (rank: int)
    ensures 1 <= rank <= 5
    ensures rank == 5 <==> !(q == Some("A") || q == Some("B") || q == Some("C") || q == Some("D"))
  {
    if q == Some("A") then 1
    else if q == Some("B") then 2
    else if q == Some("C") then 3
    else if q == Some("D") then 4
    else 5
  }

  /** `item.column_location === 'plan'` */
  function InPlan(): PlanItem -> bool {
    (item: PlanItem) => item.columnLocation == "plan"
  }

  /** `(priority || 0, qualityOrder[task_quality] || 5)`, compared in that order. */
  function PlanKey(): PlanItem -> Sorting.Key {
    (item: PlanItem) => Sorting.Key(item.priority.GetOr(0), QualityOrder(item.taskQuality))
  }

  /**
   * sortPlanItems: exactly the items in the plan column, each as often as
   * in the input, ordered by priority (a missing one counts as 0) and then
   * by quality letter. The input is a value and is left as it was.
   */
  function SortPlanItems(items: seq<PlanItem>): (r: seq<PlanItem>)
    ensures multiset(r) == multiset(Sorting.Filter(items, InPlan()))
    ensures forall i :: 0 <= i < |r| ==> r[i] in items && r[i].columnLocation == "plan"
    ensures forall i :: 0 <= i < |items| && items[i].columnLocation == "plan" ==> items[i] in r
    ensures forall i, j :: 0 <= i < j < |r| ==>
              var pi, pj := r[i].priority.GetOr(0), r[j].priority.GetOr(0);
              pi < pj || (pi == pj && QualityOrder(r[i].taskQuality) <= QualityOrder(r[j].taskQuality))
  {
    Sorting.SortedFilter(items, InPlan(), PlanKey());
    Sorting.SortBy(Sorting.Filter(items, InPlan()), PlanKey())
  }

  /** Items with equal priority and quality rank keep their input order. */
  lemma PlanOrderStable(items: seq<PlanItem>, k: Sorting.Key)
    ensures Sorting.WithKey(SortPlanItems(items), PlanKey(), k)
         == Sorting.WithKey(Sorting.Filter(items, InPlan()), PlanKey(), k)
  {
    Sorting.SortByStable(Sorting.Filter(items, InPlan()), PlanKey(), k);
  }
}
