/** Planned trees over two plans: when each field means the same in both, at every object its bucket can hold, so do the
    trees. */
module TreeMeaning {
  import opened Wrappers
  import opened StepGraph
  import opened Dag
  import opened Layers
  import opened ExecutePlan
  import opened RewriteMeaning

  /** The child's place in the tree as planned, nothing lifted. */
  ghost function BareChain(op: ObjectPlan, chain: Chain, i: int): Chain
    requires HasChild(op, i)
  {
    Under(chain, Child(op, i).parent, {}, op.fields[i].isList)
  }

  /** Trees of one form, each field of which means the same in both at every object its bucket can hold. */
  ghost predicate SameFields<V(!new)>(g: Graph, rank: Id -> nat, g': Graph, rank': Id -> nat, sem: (Op, seq<V>) -> V, op: ObjectPlan, op': ObjectPlan, chain: Chain)
    requires Ranked(g, rank) && Ranked(g', rank') && StepsIn(g, op) && StepsIn(g', op')
    decreases op
  {
    && |op'.fields| == |op.fields| && (forall i :: 0 <= i < |op.fields| ==> op'.fields[i].isList == op.fields[i].isList)
    && (forall i :: HasChild(op, i) <==> HasChild(op', i))
    && (forall i, place: seq<V> :: 0 <= i < |op.fields| && |place| == Level(chain) + 1 ==>
          SameAt(g, rank, g', rank', sem, op, op', Seen(g, rank, sem, chain, place, op.parent), i))
    && forall i :: HasChild(op, i) && HasChild(op', i) ==> SameFields(g, rank, g', rank', sem, Child(op, i), Child(op', i), BareChain(op, chain, i))
  }

  ghost predicate SameAt<V>(g: Graph, rank: Id -> nat, g': Graph, rank': Id -> nat, sem: (Op, seq<V>) -> V, op: ObjectPlan, op': ObjectPlan, o: V, i: nat)
    requires Ranked(g, rank) && Ranked(g', rank') && StepsIn(g, op) && StepsIn(g', op') && i < |op.fields| == |op'.fields|
  {
    FieldMeaning(g', rank', sem, op', [o], i) == FieldMeaning(g, rank, sem, op, [o], i)
  }

  /** A column is what its entries mean one by one. */
  lemma ColumnByEntry<V>(g: Graph, rank: Id -> nat, sem: (Op, seq<V>) -> V, op: ObjectPlan, objs: seq<V>, i: nat, k: nat)
    requires Ranked(g, rank) && StepsIn(g, op) && i < |op.fields| && k < |objs|
    ensures FieldMeaning(g, rank, sem, op, objs, i)[k] == FieldMeaning(g, rank, sem, op, [objs[k]], i)[0]
  {
  }

  lemma SameColumns<V(!new)>(g: Graph, rank: Id -> nat, g': Graph, rank': Id -> nat, sem: (Op, seq<V>) -> V, op: ObjectPlan, op': ObjectPlan,
                             chain: Chain, objs: seq<V>, places: seq<seq<V>>, i: nat)
    requires Ranked(g, rank) && Ranked(g', rank') && StepsIn(g, op) && StepsIn(g', op') && SameFields(g, rank, g', rank', sem, op, op', chain)
    requires chain.boundary == op.parent && Placed(g, rank, sem, chain, objs, places) && i < |op.fields|
    ensures FieldMeaning(g', rank', sem, op', objs, i) == FieldMeaning(g, rank, sem, op, objs, i)
  {
    forall k | 0 <= k < |objs| ensures FieldMeaning(g', rank', sem, op', objs, i)[k] == FieldMeaning(g, rank, sem, op, objs, i)[k] {
      assert SameAt(g, rank, g', rank', sem, op, op', Seen(g, rank, sem, chain, places[k], op.parent), i);
      ColumnByEntry(g, rank, sem, op, objs, i, k);
      ColumnByEntry(g', rank', sem, op', objs, i, k);
    }
  }

  /** The child bucket of a field as planned. */
  lemma PlannedChildIsPlaced<V>(g: Graph, rank: Id -> nat, sem: (Op, seq<V>) -> V, op: ObjectPlan, chain: Chain, objs: seq<V>, places: seq<seq<V>>,
                                i: nat, nest: Nest<V>)
    requires Ranked(g, rank) && StepsIn(g, op) && HasChild(op, i) && Child(op, i).parent == op.fields[i].step
    requires chain.boundary == op.parent && chain == Unlifted(chain) && Placed(g, rank, sem, chain, objs, places)
    requires ValidNest(op.fields[i].isList, FieldMeaning(g, rank, sem, op, objs, i), nest)
    ensures Placed(g, rank, sem, BareChain(op, chain, i), nest.objs, ChildPlaces(places, nest))
  {
    var col, s := FieldMeaning(g, rank, sem, op, objs, i), op.fields[i].step;
    forall k | 0 <= k < |col|
      ensures col[k] == Seen(g, rank, sem, chain, places[k], s)
    {
      UnliftedIsMeant(g, rank, sem, chain, places[k], s);
    }
    ChildIsPlaced(g, rank, sem, BareChain(op, chain, i), places, col, nest);
  }

  lemma {:induction false} SameFieldsMeanTheSame<V(!new)>(g: Graph, rank: Id -> nat, g': Graph, rank': Id -> nat, sem: (Op, seq<V>) -> V, ex: Explode<V>,
                                                          path: seq<nat>, op: ObjectPlan, op': ObjectPlan, chain: Chain, objs: seq<V>, places: seq<seq<V>>)
    requires Ranked(g, rank) && Ranked(g', rank') && StepsIn(g, op) && StepsIn(g', op') && SameFields(g, rank, g', rank', sem, op, op', chain)
    requires ValidExplode(ex) && BoundedByFields(op) && chain == Unlifted(chain) && chain.boundary == op.parent && Placed(g, rank, sem, chain, objs, places)
    ensures Meaning(g', rank', sem, ex, path, op', objs) == Meaning(g, rank, sem, ex, path, op, objs)
    decreases op, |op.fields| + 1
  {
    forall i | 0 <= i < |op.fields| ensures FieldMeaning(g', rank', sem, op', objs, i) == FieldMeaning(g, rank, sem, op, objs, i) {
      SameColumns(g, rank, g', rank', sem, op, op', chain, objs, places, i);
    }
    SameUpTo(g, rank, g', rank', sem, ex, path, op, op', chain, objs, places, |op.fields|);
  }

  lemma {:induction false} SameUpTo<V(!new)>(g: Graph, rank: Id -> nat, g': Graph, rank': Id -> nat, sem: (Op, seq<V>) -> V, ex: Explode<V>,
                                             path: seq<nat>, op: ObjectPlan, op': ObjectPlan, chain: Chain, objs: seq<V>, places: seq<seq<V>>, k: nat)
    requires Ranked(g, rank) && Ranked(g', rank') && StepsIn(g, op) && StepsIn(g', op') && SameFields(g, rank, g', rank', sem, op, op', chain)
    requires ValidExplode(ex) && BoundedByFields(op) && chain == Unlifted(chain) && chain.boundary == op.parent && Placed(g, rank, sem, chain, objs, places)
    requires k <= |op.fields|
    ensures FieldsMeaning(g', rank', sem, ex, path, op', objs, k) == FieldsMeaning(g, rank, sem, ex, path, op, objs, k)
    decreases op, k
  {
    if k > 0 {
      SameUpTo(g, rank, g', rank', sem, ex, path, op, op', chain, objs, places, k - 1);
      assert HasChild(op, k - 1) <==> HasChild(op', k - 1);
      SameColumns(g, rank, g', rank', sem, op, op', chain, objs, places, k - 1);
      if HasChild(op, k - 1) {
        var done := FieldsMeaning(g, rank, sem, ex, path, op, objs, k - 1);
        SameChild(g, rank, g', rank', sem, ex, path, op, op', chain, objs, places, k - 1, done);
      }
    }
  }

  lemma {:induction false} SameChild<V(!new)>(g: Graph, rank: Id -> nat, g': Graph, rank': Id -> nat, sem: (Op, seq<V>) -> V, ex: Explode<V>,
                                              path: seq<nat>, op: ObjectPlan, op': ObjectPlan, chain: Chain, objs: seq<V>, places: seq<seq<V>>, i: nat,
                                              done: seq<Option<Result<V>>>)
    requires Ranked(g, rank) && Ranked(g', rank') && StepsIn(g, op) && StepsIn(g', op') && SameFields(g, rank, g', rank', sem, op, op', chain)
    requires ValidExplode(ex) && BoundedByFields(op) && chain == Unlifted(chain) && chain.boundary == op.parent && Placed(g, rank, sem, chain, objs, places)
    requires HasChild(op, i) && HasChild(op', i)
    ensures var objs' := ex(path + [i], op.fields[i].isList, FieldMeaning(g, rank, sem, op, objs, i), done).objs;
            Meaning(g', rank', sem, ex, path + [i], Child(op', i), objs') == Meaning(g, rank, sem, ex, path + [i], Child(op, i), objs')
    decreases op, 0
  {
    var col := FieldMeaning(g, rank, sem, op, objs, i);
    var nest := ex(path + [i], op.fields[i].isList, col, done);
    assert ValidNest(op.fields[i].isList, col, nest);
    PlannedChildIsPlaced(g, rank, sem, op, chain, objs, places, i, nest);
    SameFieldsMeanTheSame(g, rank, g', rank', sem, ex, path + [i], Child(op, i), Child(op', i), BareChain(op, chain, i), nest.objs, ChildPlaces(places, nest));
  }

  // ----- one tree over a plan and a part of it -----

  /** A part of a plan that holds its own dependencies gives its steps the same values at a bucket position. */
  lemma PartKeepsBucketValue<V>(g: Graph, rank: Id -> nat, part: Graph, rank': Id -> nat, sem: (Op, seq<V>) -> V, env: map<Id, V>, s: Id)
    requires Ranked(g, rank) && Ranked(part, rank') && s in part && forall x :: x in part ==> x in g && part[x] == g[x]
    ensures Eval(part, rank', sem, env, s) == Eval(g, rank, sem, env, s)
  {
    var r := Identity(part);
    forall x | x in part ensures ImageOf(part, g, r, x) && forall d :: d in part[x].deps ==> d in part {
      forall i | 0 <= i < |part[x].deps| ensures r[part[x].deps[i]] == part[x].deps[i] { assert part[x].deps[i] in part[x].deps; }
      assert MapIds(r, part[x].deps) == part[x].deps;
    }
    ImagesAgree(part, rank', g, rank, r, sem, env, env, part.Keys, s);
  }

  lemma {:induction false} PartFieldsAreSame<V(!new)>(g: Graph, rank: Id -> nat, part: Graph, rank': Id -> nat, sem: (Op, seq<V>) -> V, op: ObjectPlan, chain: Chain)
    requires Ranked(g, rank) && Ranked(part, rank') && StepsIn(part, op) && StepsIn(g, op) && forall x :: x in part ==> x in g && part[x] == g[x]
    ensures SameFields(part, rank', g, rank, sem, op, op, chain)
    decreases op
  {
    forall i, o: V | 0 <= i < |op.fields|
      ensures SameAt(part, rank', g, rank, sem, op, op, o, i)
    {
      assert Targets(op)[i] == op.fields[i].step && op.fields[i].step in Targets(op);
      PartKeepsBucketValue(g, rank, part, rank', sem, map[op.parent := o], op.fields[i].step);
    }
    forall i | HasChild(op, i) ensures SameFields(part, rank', g, rank, sem, Child(op, i), Child(op, i), BareChain(op, chain, i)) {
      PartFieldsAreSame(g, rank, part, rank', sem, Child(op, i), BareChain(op, chain, i));
    }
  }

  /** What a tree means is the same over a part of the plan that holds its steps and their dependencies. */
  lemma PartMeansTheSame<V(!new)>(g: Graph, rank: Id -> nat, part: Graph, rank': Id -> nat, sem: (Op, seq<V>) -> V, ex: Explode<V>,
                                  op: ObjectPlan, objs: seq<V>)
    requires Ranked(g, rank) && Ranked(part, rank') && StepsIn(part, op) && StepsIn(g, op) && forall x :: x in part ==> x in g && part[x] == g[x]
    requires ValidExplode(ex) && BoundedByFields(op)
    ensures Meaning(g, rank, sem, ex, [], op, objs) == Meaning(part, rank', sem, ex, [], op, objs)
  {
    PartFieldsAreSame(g, rank, part, rank', sem, op, Top(op.parent));
    SameTopMeansTheSame(part, rank', g, rank, sem, ex, op, op, objs);
  }

  lemma SameTopMeansTheSame<V(!new)>(g: Graph, rank: Id -> nat, g': Graph, rank': Id -> nat, sem: (Op, seq<V>) -> V, ex: Explode<V>,
                                     op: ObjectPlan, op': ObjectPlan, objs: seq<V>)
    requires Ranked(g, rank) && Ranked(g', rank') && StepsIn(g, op) && StepsIn(g', op') && SameFields(g, rank, g', rank', sem, op, op', Top(op.parent))
    requires ValidExplode(ex) && BoundedByFields(op)
    ensures Meaning(g', rank', sem, ex, [], op', objs) == Meaning(g, rank, sem, ex, [], op, objs)
  {
    SameFieldsMeanTheSame(g, rank, g', rank', sem, ex, [], op, op', Top(op.parent), objs, TopPlaces(objs));
  }
}
