/** The each step: a list is exploded, its element plan run once over all items of all entries, and the results regrouped. */
module EachRuns {
  import opened Wrappers
  import opened Sequences
  import opened StepGraph
  import opened Ordering
  import opened StepModel
  import opened ExecutePlan
  import CoreSteps

  /** What the element plan makes of one item: the value of its last step where the item source holds that item. */
  ghost function OfItem<V>(g: Graph, rank: Id -> nat, sem: (Op, seq<V>) -> V, item: Id, mapped: Id): V -> V
    requires Ranked(g, rank) && mapped in g
  {
    o => Eval(g, rank, sem, map[item := o], mapped)
  }

  /** One run over the flat bucket maps every item as it would be mapped alone. */
  lemma RunMapsItems<V>(g: Graph, rank: Id -> nat, sem: (Op, seq<V>) -> V, item: Id, mapped: Id, flat: seq<V>, ordered: seq<Id>)
    requires Ranked(g, rank) && item in g && mapped in g && DepsFirst(g, {item}, ordered) && item !in ordered
    requires (forall s :: s in ordered ==> s in g) && (mapped == item || mapped in ordered)
    ensures CanRun(g, map[item := flat].Keys, ordered)
    ensures var store := RunEach(g, sem, |flat|, ordered, map[item := flat]);
            mapped in store && CoreSteps.MappedEach(flat, OfItem(g, rank, sem, item, mapped), store[mapped])
  {
    var seed, places, chain := map[item := flat], TopPlaces(flat), Top(item);
    assert seed.Keys == {item};
    DepsFirstCanRun(g, {item}, ordered);
    assert Shows(g, rank, sem, chain, places, seed, {});
    RunShows(g, rank, sem, chain, places, ordered, seed);
    forall k | 0 <= k < |flat|
      ensures RunEach(g, sem, |flat|, ordered, seed)[mapped][k] == OfItem(g, rank, sem, item, mapped)(flat[k])
    {
      UnliftedIsMeant(g, rank, sem, chain, places[k], mapped);
    }
  }

  /** `EachStep.execute`: each entry gets its own items, each mapped as the element plan maps it alone, in order; a missing
      list gives none.  The item source returns the items verbatim, so its column is the run's seed. */
  method ExecuteEach<V>(g: Graph, ghost rank: Id -> nat, sem: (Op, seq<V>) -> V, item: Id, mapped: Id, capable: set<Id>, lists: seq<Option<seq<V>>>)
    returns (grouped: seq<seq<V>>)
    requires Ranked(g, rank) && item in g && mapped in g
    ensures |grouped| == |lists|
    ensures forall i :: 0 <= i < |lists| ==>
              match lists[i]
              case None => grouped[i] == []
              case Some(list) => |grouped[i]| == |list| && forall j :: 0 <= j < |list| ==> grouped[i][j] == Eval(g, rank, sem, map[item := list[j]], mapped)
  {
    var flat, owners := CoreSteps.Explode(lists);
    var ordered := OrderStepsWithin(g, rank, [mapped], {item});
    InScopeOfItself(g, rank, item, mapped);
    assert mapped in [mapped] && (forall s :: s in ordered ==> s in Elements(ordered));
    RunMapsItems(g, rank, sem, item, mapped, flat, ordered);
    var seed := map[item := flat];
    assert seed.Keys == {item};
    var results := RunSteps(g, sem, |flat|, ordered, seed, capable);
    assert lists[..|lists|] == lists;
    grouped := CoreSteps.Regroup(lists, owners, results[mapped]);
    forall i | 0 <= i < |lists| ensures CoreSteps.MappedEach(CoreSteps.ItemsOf(lists[i]), OfItem(g, rank, sem, item, mapped), grouped[i]) {
      CoreSteps.StretchIsMapped(lists, OfItem(g, rank, sem, item, mapped), results[mapped], i);
    }
  }

  lemma InScopeOfItself(g: Graph, rank: Id -> nat, item: Id, mapped: Id)
    requires Ranked(g, rank) && mapped in g
    ensures mapped == item || mapped in Scopes(g, rank, {item}, Elements([mapped]))
  {
    assert mapped in Elements([mapped]);
    if mapped != item { assert mapped in Scope(g, rank, {item}, mapped); }
  }
}
