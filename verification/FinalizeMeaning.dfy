/** The passes of a finalization end to end: what the laid-out plan yields, bucket by bucket, is what was planned. */
module FinalizeMeaning {
  import opened Wrappers
  import opened Sequences
  import opened StepGraph
  import opened Dag
  import opened Layers
  import opened ExecutePlan
  import opened RewriteMeaning
  import opened HoistLimits
  import opened TreeMeaning
  import opened OptimizeMeaning
  import opened Finalize

  // ----- where merging is not felt -----

  /** Followed to where they come from, `s` and what it is computed from are no bucket's object. */
  ghost predicate MeetsNoObject(g: Graph, rank: Id -> nat, chain: Chain, s: Id)
    requires Ranked(g, rank) && s in g
    decreases rank(s)
  {
    s != Source(chain, s).boundary && forall d :: d in g[s].deps ==> MeetsNoObject(g, rank, Source(chain, s), d)
  }

  /** A field does not feel the merges: nothing it computes from is alike to its layer's boundary, or the layer's objects
      are what its boundary computes from no object at all -- which a list's items never are. */
  ghost predicate StaysApart(g: Graph, rank: Id -> nat, op: ObjectPlan, chain: Chain, i: nat)
    requires Ranked(g, rank) && StepsIn(g, op) && i < |op.fields|
  {
    assert Targets(op)[i] == op.fields[i].step && op.fields[i].step in Targets(op);
    BoundaryStaysApart(g, rank, op.parent, op.fields[i].step) || MeetsNoObject(g, rank, chain, op.parent)
  }

  ghost predicate AllApart(g: Graph, rank: Id -> nat, op: ObjectPlan, chain: Chain)
    requires Ranked(g, rank) && StepsIn(g, op)
    decreases op
  {
    && (forall i :: 0 <= i < |op.fields| ==> StaysApart(g, rank, op, chain, i))
    && forall i :: HasChild(op, i) ==> AllApart(g, rank, Child(op, i), BareChain(op, chain, i))
  }

  lemma {:induction false} NoObjectIsConstant<V>(g: Graph, rank: Id -> nat, sem: (Op, seq<V>) -> V, chain: Chain, place: seq<V>, s: Id)
    requires Ranked(g, rank) && s in g && Level(chain) < |place| && MeetsNoObject(g, rank, chain, s)
    ensures Seen(g, rank, sem, chain, place, s) == Eval(g, rank, sem, map[], s)
    decreases rank(s)
  {
    var args := SeenArgs(g, rank, sem, Source(chain, s), place, s);
    forall i | 0 <= i < |args|
      ensures args[i] == Eval(g, rank, sem, map[], g[s].deps[i])
    {
      assert g[s].deps[i] in g[s].deps;
      NoObjectIsConstant(g, rank, sem, Source(chain, s), place, g[s].deps[i]);
    }
    EvalByDeps(g, rank, sem, map[], s, args);
  }

  lemma {:induction false} ConstantMeetsNoObject(g: Graph, rank: Id -> nat, chain: Chain, place: seq<Term>, s: Id)
    requires Ranked(g, rank) && s in g && Apart(chain, place) && Seen(g, rank, Free(), chain, place, s) == Eval(g, rank, Free(), map[], s)
    ensures MeetsNoObject(g, rank, chain, s)
    decreases rank(s)
  {
    SourceIsApart(chain, place, s);
    var args, alone := SeenArgs(g, rank, Free(), Source(chain, s), place, s), Eval(g, rank, Free(), map[], s).args;
    forall d | d in g[s].deps
      ensures MeetsNoObject(g, rank, Source(chain, s), d)
    {
      var i :| 0 <= i < |g[s].deps| && g[s].deps[i] == d;
      assert args[i] == alone[i] == Eval(g, rank, Free(), map[], d);
      ConstantMeetsNoObject(g, rank, Source(chain, s), place, d);
    }
  }

  // ----- one field at one position, through merging and trimming -----

  lemma FinalizedKeepsBucketValue<V>(g: Graph, rank: Id -> nat, g': Graph, rank': Id -> nat, r: map<Id, Id>, sem: (Op, seq<V>) -> V, p: Id, o: V, s: Id)
    requires Ranked(g, rank) && Ranked(g', rank') && MergedAndTrimmed(g, g', r) && s in g && p in g && SendTo(r, s) in g'
    requires BoundaryStaysApart(g, rank, p, s) || o == Eval(g, rank, sem, map[], p)
    ensures Eval(g', rank', sem, map[SendTo(r, p) := o], SendTo(r, s)) == Eval(g, rank, sem, map[p := o], s)
  {
    var merged, keep :| Acyclic(merged) && Merged(merged) && Quotient(g, merged, r) && keep <= merged.Keys && ClosedUpTo(merged, {}, keep)
                        && g' == Restricted(merged, keep);
    var mid: Id -> nat :| Ranked(merged, mid);
    if BoundaryStaysApart(g, rank, p, s) {
      ApartIffNoneMerged(g, rank, merged, r, p, s);
      DedupKeepsBucketValues(g, rank, merged, mid, r, sem, p, o, s);
    } else {
      DedupKeepsComputedBoundary(g, rank, merged, mid, r, sem, p, o, s);
    }
    PartKeepsBucketValue(merged, mid, g', rank', sem, map[r[p] := o], r[s]);
  }

  lemma KeptBucketValueIsApart(g: Graph, rank: Id -> nat, g': Graph, rank': Id -> nat, r: map<Id, Id>, p: Id, o: Term, s: Id)
    requires Ranked(g, rank) && Ranked(g', rank') && MergedAndTrimmed(g, g', r) && s in g && p in g && SendTo(r, s) in g'
    requires Eval(g', rank', Free(), map[SendTo(r, p) := o], SendTo(r, s)) == Eval(g, rank, Free(), map[p := o], s)
    ensures BoundaryStaysApart(g, rank, p, s) || o == Eval(g, rank, Free(), map[], p)
  {
    var merged, keep :| Acyclic(merged) && Merged(merged) && Quotient(g, merged, r) && keep <= merged.Keys && ClosedUpTo(merged, {}, keep)
                        && g' == Restricted(merged, keep);
    var mid: Id -> nat :| Ranked(merged, mid);
    PartKeepsBucketValue(merged, mid, g', rank', Free(), map[r[p] := o], r[s]);
    DedupKeepsBucketValueIff(g, rank, merged, mid, r, p, o, s);
  }

  // ----- merging and trimming, over the whole tree -----

  lemma {:induction false} ApartFieldsAreSame<V(!new)>(g: Graph, rank: Id -> nat, g': Graph, rank': Id -> nat, r: map<Id, Id>, sem: (Op, seq<V>) -> V,
                                                       op: ObjectPlan, op': ObjectPlan, chain: Chain)
    requires Ranked(g, rank) && Ranked(g', rank') && MergedAndTrimmed(g, g', r) && StepsIn(g, op) && StepsIn(g', op')
    requires RemappedBy(op, op', r) && AllApart(g, rank, op, chain) && chain.boundary == op.parent
    ensures SameFields(g, rank, g', rank', sem, op, op', chain)
    decreases op
  {
    forall i, place: seq<V> | 0 <= i < |op.fields| && |place| == Level(chain) + 1
      ensures SameAt(g, rank, g', rank', sem, op, op', Seen(g, rank, sem, chain, place, op.parent), i)
    {
      ApartFieldIsSame(g, rank, g', rank', r, sem, op, op', chain, place, i);
    }
    forall i | HasChild(op, i) && HasChild(op', i) ensures SameFields(g, rank, g', rank', sem, Child(op, i), Child(op', i), BareChain(op, chain, i)) {
      ApartFieldsAreSame(g, rank, g', rank', r, sem, Child(op, i), Child(op', i), BareChain(op, chain, i));
    }
  }

  lemma SameAtOne<V>(g: Graph, rank: Id -> nat, g': Graph, rank': Id -> nat, sem: (Op, seq<V>) -> V, op: ObjectPlan, op': ObjectPlan, o: V, i: nat)
    requires Ranked(g, rank) && Ranked(g', rank') && StepsIn(g, op) && StepsIn(g', op') && i < |op.fields| == |op'.fields|
    requires op.fields[i].step in g && op'.fields[i].step in g'
    requires At(g', rank', sem, op', o, op'.fields[i].step) == At(g, rank, sem, op, o, op.fields[i].step)
    ensures SameAt(g, rank, g', rank', sem, op, op', o, i)
  {
  }

  lemma ApartFieldIsSame<V>(g: Graph, rank: Id -> nat, g': Graph, rank': Id -> nat, r: map<Id, Id>, sem: (Op, seq<V>) -> V,
                            op: ObjectPlan, op': ObjectPlan, chain: Chain, place: seq<V>, i: nat)
    requires Ranked(g, rank) && Ranked(g', rank') && MergedAndTrimmed(g, g', r) && StepsIn(g, op) && StepsIn(g', op')
    requires RemappedBy(op, op', r) && i < |op.fields| && chain.boundary == op.parent && StaysApart(g, rank, op, chain, i) && Level(chain) < |place|
    ensures SameAt(g, rank, g', rank', sem, op, op', Seen(g, rank, sem, chain, place, op.parent), i)
  {
    var o, s := Seen(g, rank, sem, chain, place, op.parent), op.fields[i].step;
    assert Targets(op)[i] == s && Targets(op')[i] == op'.fields[i].step;
    assert s in Targets(op) && op'.fields[i].step in Targets(op');
    if !BoundaryStaysApart(g, rank, op.parent, s) { NoObjectIsConstant(g, rank, sem, chain, place, op.parent); }
    FinalizedKeepsBucketValue(g, rank, g', rank', r, sem, op.parent, o, s);
    SameAtOne(g, rank, g', rank', sem, op, op', o, i);
  }

  /** Over buckets of one entry, trees that mean the same feel no merge at any field. */
  lemma {:induction false} SameMeaningIsApart(g: Graph, rank: Id -> nat, g': Graph, rank': Id -> nat, r: map<Id, Id>, ex: Explode<Term>, path: seq<nat>,
                                              op: ObjectPlan, op': ObjectPlan, chain: Chain, objs: seq<Term>, place: seq<Term>)
    requires Ranked(g, rank) && Ranked(g', rank') && MergedAndTrimmed(g, g', r) && StepsIn(g, op) && StepsIn(g', op') && RemappedBy(op, op', r)
    requires OneEach(ex) && BoundedByFields(op) && chain == Unlifted(chain) && chain.boundary == op.parent
    requires Level(chain) == |path| && Apart(chain, place) && Placed(g, rank, Free(), chain, objs, [place])
    requires Meaning(g', rank', Free(), ex, path, op', objs) == Meaning(g, rank, Free(), ex, path, op, objs)
    ensures AllApart(g, rank, op, chain)
    decreases op
  {
    forall i | 0 <= i < |op.fields|
      ensures StaysApart(g, rank, op, chain, i)
    {
      SameFieldIsApart(g, rank, g', rank', r, ex, path, op, op', chain, objs, place, i);
    }
    forall i | HasChild(op, i)
      ensures AllApart(g, rank, Child(op, i), BareChain(op, chain, i))
    {
      SameChildIsApart(g, rank, g', rank', r, ex, path, op, op', chain, objs, place, i);
    }
  }

  lemma {:induction false} SameChildIsApart(g: Graph, rank: Id -> nat, g': Graph, rank': Id -> nat, r: map<Id, Id>, ex: Explode<Term>, path: seq<nat>,
                                            op: ObjectPlan, op': ObjectPlan, chain: Chain, objs: seq<Term>, place: seq<Term>, i: nat)
    requires Ranked(g, rank) && Ranked(g', rank') && MergedAndTrimmed(g, g', r) && StepsIn(g, op) && StepsIn(g', op') && RemappedBy(op, op', r)
    requires OneEach(ex) && BoundedByFields(op) && chain == Unlifted(chain) && chain.boundary == op.parent && HasChild(op, i)
    requires Level(chain) == |path| && Apart(chain, place) && Placed(g, rank, Free(), chain, objs, [place])
    requires Meaning(g', rank', Free(), ex, path, op', objs) == Meaning(g, rank, Free(), ex, path, op, objs)
    ensures AllApart(g, rank, Child(op, i), BareChain(op, chain, i))
    decreases op, 0
  {
    assert HasChild(op', i);
    var nest := OneNest(path + [i], op.fields[i].isList, FieldMeaning(g, rank, Free(), op, objs, i));
    SameMeaningOfChild(g, rank, g', rank', ex, path, op, op', objs, i, nest);
    OnlyChildIsPlaced(g, rank, ex, path, op, chain, objs, place, i, nest);
    SameMeaningIsApart(g, rank, g', rank', r, ex, path + [i], Child(op, i), Child(op', i), BareChain(op, chain, i), nest.objs, place + [nest.objs[0]]);
  }

  lemma SameFieldIsApart(g: Graph, rank: Id -> nat, g': Graph, rank': Id -> nat, r: map<Id, Id>, ex: Explode<Term>, path: seq<nat>,
                         op: ObjectPlan, op': ObjectPlan, chain: Chain, objs: seq<Term>, place: seq<Term>, i: nat)
    requires Ranked(g, rank) && Ranked(g', rank') && MergedAndTrimmed(g, g', r) && StepsIn(g, op) && StepsIn(g', op') && RemappedBy(op, op', r)
    requires chain.boundary == op.parent && Apart(chain, place) && Placed(g, rank, Free(), chain, objs, [place]) && i < |op.fields|
    requires Meaning(g', rank', Free(), ex, path, op', objs).cols == Meaning(g, rank, Free(), ex, path, op, objs).cols
    ensures StaysApart(g, rank, op, chain, i)
  {
    assert Targets(op)[i] == op.fields[i].step && Targets(op')[i] == op'.fields[i].step;
    assert op.fields[i].step in Targets(op) && op'.fields[i].step in Targets(op');
    SameColumn(g, rank, g', rank', ex, path, op, op', objs, i);
    var o, s := Seen(g, rank, Free(), chain, place, op.parent), op.fields[i].step;
    assert [place][0] == place && o == objs[0];
    assert FieldMeaning(g', rank', Free(), op', objs, i)[0] == At(g', rank', Free(), op', o, op'.fields[i].step);
    assert FieldMeaning(g, rank, Free(), op, objs, i)[0] == At(g, rank, Free(), op, o, s);
    KeptBucketValueIsApart(g, rank, g', rank', r, op.parent, o, s);
    if o == Eval(g, rank, Free(), map[], op.parent) { ConstantMeetsNoObject(g, rank, chain, place, op.parent); }
  }

  lemma OneChildMeant(g: Graph, rank: Id -> nat, ex: Explode<Term>, path: seq<nat>, op: ObjectPlan, objs: seq<Term>, i: nat, nest: Nest<Term>)
    requires Ranked(g, rank) && StepsIn(g, op) && OneEach(ex) && |objs| == 1 && HasChild(op, i)
    requires nest == OneNest(path + [i], op.fields[i].isList, FieldMeaning(g, rank, Free(), op, objs, i))
    ensures var kids := Meaning(g, rank, Free(), ex, path, op, objs).kids;
            |kids| == |op.fields| && kids[i] == Some(Meaning(g, rank, Free(), ex, path + [i], Child(op, i), nest.objs))
  {
    OpensOne(ex, path + [i], op.fields[i].isList, FieldMeaning(g, rank, Free(), op, objs, i), FieldsMeaning(g, rank, Free(), ex, path, op, objs, i));
    ChildMeant(g, rank, ex, path, op, objs, i, nest);
    assert Meaning(g, rank, Free(), ex, path, op, objs).kids == FieldsMeaning(g, rank, Free(), ex, path, op, objs, |op.fields|);
  }

  lemma SameMeaningOfChild(g: Graph, rank: Id -> nat, g': Graph, rank': Id -> nat, ex: Explode<Term>, path: seq<nat>, op: ObjectPlan, op': ObjectPlan,
                           objs: seq<Term>, i: nat, nest: Nest<Term>)
    requires Ranked(g, rank) && Ranked(g', rank') && StepsIn(g, op) && StepsIn(g', op') && OneEach(ex) && |objs| == 1
    requires HasChild(op, i) && HasChild(op', i) && op'.fields[i].isList == op.fields[i].isList
    requires nest == OneNest(path + [i], op.fields[i].isList, FieldMeaning(g, rank, Free(), op, objs, i))
    requires Meaning(g', rank', Free(), ex, path, op', objs) == Meaning(g, rank, Free(), ex, path, op, objs)
    ensures Meaning(g', rank', Free(), ex, path + [i], Child(op', i), nest.objs) == Meaning(g, rank, Free(), ex, path + [i], Child(op, i), nest.objs)
  {
    SameColumn(g, rank, g', rank', ex, path, op, op', objs, i);
    OneChildMeant(g, rank, ex, path, op, objs, i, nest);
    OneChildMeant(g', rank', ex, path, op', objs, i, nest);
  }

  lemma SameColumn(g: Graph, rank: Id -> nat, g': Graph, rank': Id -> nat, ex: Explode<Term>, path: seq<nat>, op: ObjectPlan, op': ObjectPlan,
                   objs: seq<Term>, i: nat)
    requires Ranked(g, rank) && Ranked(g', rank') && StepsIn(g, op) && StepsIn(g', op') && i < |op.fields| && i < |op'.fields|
    requires Meaning(g', rank', Free(), ex, path, op', objs).cols == Meaning(g, rank, Free(), ex, path, op, objs).cols
    ensures FieldMeaning(g', rank', Free(), op', objs, i) == FieldMeaning(g, rank, Free(), op, objs, i)
  {
    assert Meaning(g', rank', Free(), ex, path, op', objs).cols[i] == FieldMeaning(g', rank', Free(), op', objs, i);
    assert Meaning(g, rank, Free(), ex, path, op, objs).cols[i] == FieldMeaning(g, rank, Free(), op, objs, i);
  }

  lemma OnlyChildIsPlaced(g: Graph, rank: Id -> nat, ex: Explode<Term>, path: seq<nat>, op: ObjectPlan, chain: Chain, objs: seq<Term>, place: seq<Term>,
                          i: nat, nest: Nest<Term>)
    requires Ranked(g, rank) && StepsIn(g, op) && BoundedByFields(op) && HasChild(op, i) && chain == Unlifted(chain) && chain.boundary == op.parent
    requires Level(chain) == |path| && Apart(chain, place) && Placed(g, rank, Free(), chain, objs, [place])
    requires nest == OneNest(path + [i], op.fields[i].isList, FieldMeaning(g, rank, Free(), op, objs, i))
    ensures Placed(g, rank, Free(), BareChain(op, chain, i), nest.objs, [place + [nest.objs[0]]])
    ensures Apart(BareChain(op, chain, i), place + [nest.objs[0]])
  {
    OneHop(0);
    assert ChildPlaces([place], nest) == [place + [nest.objs[0]]];
    PlannedChildIsPlaced(g, rank, Free(), op, chain, objs, [place], i, nest);
    assert |place| == Level(chain) + 1 by { assert [place][0] == place; }
    ObjectsStayApart(chain, place, nest.objs[0]);
  }

  lemma MergedMeansTheSame<V(!new)>(g: Graph, rank: Id -> nat, g': Graph, rank': Id -> nat, r: map<Id, Id>, sem: (Op, seq<V>) -> V, ex: Explode<V>,
                                    op: ObjectPlan, op': ObjectPlan, objs: seq<V>)
    requires Ranked(g, rank) && Ranked(g', rank') && MergedAndTrimmed(g, g', r) && StepsIn(g, op) && StepsIn(g', op') && RemappedBy(op, op', r)
    requires BoundedByFields(op) && ValidExplode(ex) && AllApart(g, rank, op, Top(op.parent))
    ensures Meaning(g', rank', sem, ex, [], op', objs) == Meaning(g, rank, sem, ex, [], op, objs)
  {
    ApartFieldsAreSame(g, rank, g', rank', r, sem, op, op', Top(op.parent));
    SameTopMeansTheSame(g, rank, g', rank', sem, ex, op, op', objs);
  }

  /** Over this nest of buckets the two trees mean the same. */
  ghost predicate SameMeaning(g: Graph, rank: Id -> nat, g': Graph, rank': Id -> nat, op: ObjectPlan, op': ObjectPlan, ex: Explode<Term>, objs: seq<Term>)
    requires Ranked(g, rank) && Ranked(g', rank') && StepsIn(g, op) && StepsIn(g', op')
  {
    Meaning(g', rank', Free(), ex, [], op', objs) == Meaning(g, rank, Free(), ex, [], op, objs)
  }

  lemma MergedHasSameMeaning(g: Graph, rank: Id -> nat, g': Graph, rank': Id -> nat, r: map<Id, Id>, ex: Explode<Term>,
                             op: ObjectPlan, op': ObjectPlan, objs: seq<Term>)
    requires Ranked(g, rank) && Ranked(g', rank') && MergedAndTrimmed(g, g', r) && StepsIn(g, op) && StepsIn(g', op') && RemappedBy(op, op', r)
    requires BoundedByFields(op) && ValidExplode(ex) && AllApart(g, rank, op, Top(op.parent))
    ensures SameMeaning(g, rank, g', rank', op, op', ex, objs)
  {
    MergedMeansTheSame(g, rank, g', rank', r, Free(), ex, op, op', objs);
  }

  /** Deduplication and trimming change no field of any bucket -- for all nests of buckets and all objects -- exactly when
      every field of the planned tree stays apart. */
  lemma MergingIsExact(g: Graph, rank: Id -> nat, g': Graph, rank': Id -> nat, r: map<Id, Id>, op: ObjectPlan, op': ObjectPlan)
    requires Ranked(g, rank) && Ranked(g', rank') && MergedAndTrimmed(g, g', r) && StepsIn(g, op) && StepsIn(g', op') && RemappedBy(op, op', r)
    requires BoundedByFields(op)
    ensures (forall ex: Explode<Term>, objs: seq<Term> :: ValidExplode(ex) ==> SameMeaning(g, rank, g', rank', op, op', ex, objs))
       <==> AllApart(g, rank, op, Top(op.parent))
  {
    if AllApart(g, rank, op, Top(op.parent)) {
      forall ex: Explode<Term>, objs: seq<Term> | ValidExplode(ex)
        ensures SameMeaning(g, rank, g', rank', op, op', ex, objs)
      {
        MergedHasSameMeaning(g, rank, g', rank', r, ex, op, op', objs);
      }
    } else {
      OneItemIsOneEach();
      if SameMeaning(g, rank, g', rank', op, op', OneItem(), [Obj(0)]) {
        SameTopIsApart(g, rank, g', rank', r, OneItem(), op, op');
      }
    }
  }

  lemma TopIsPlaced<V>(g: Graph, rank: Id -> nat, sem: (Op, seq<V>) -> V, root: Id, o: V)
    requires Ranked(g, rank) && root in g
    ensures Placed(g, rank, sem, Top(root), [o], [[o]])
  {
    assert Source(Top(root), root) == Top(root);
  }

  lemma SameTopIsApart(g: Graph, rank: Id -> nat, g': Graph, rank': Id -> nat, r: map<Id, Id>, ex: Explode<Term>, op: ObjectPlan, op': ObjectPlan)
    requires Ranked(g, rank) && Ranked(g', rank') && MergedAndTrimmed(g, g', r) && StepsIn(g, op) && StepsIn(g', op') && RemappedBy(op, op', r)
    requires BoundedByFields(op) && OneEach(ex)
    requires SameMeaning(g, rank, g', rank', op, op', ex, [Obj(0)])
    ensures AllApart(g, rank, op, Top(op.parent))
  {
    TopIsPlaced(g, rank, Free(), op.parent, Obj(0));
    SameMeaningIsApart(g, rank, g', rank', r, ex, [], op, op', Top(op.parent), [Obj(0)], [Obj(0)]);
  }

  // ----- the finalized plan, run -----

  lemma LaidOutRunIsMeaning<V(!new)>(g: Graph, rank: Id -> nat, sem: (Op, seq<V>) -> V, ex: Explode<V>, op: ObjectPlan, hoist: bool, objs: seq<V>)
    requires Ranked(g, rank) && ValidExplode(ex) && LaidOut(g, rank, op, hoist) && BoundedByFields(op)
    requires hoist ==> SeamlessPlan(g, rank, op, {}, Top(op.parent))
    ensures Runnable(g, op) && op.hoistedOut == {} && RunPlan(g, sem, ex, [], op, objs, map[]) == Meaning(g, rank, sem, ex, [], op, objs)
  {
    if hoist {
      ShapeIsItsOwn(op);
      SeamlessWhenHoisted(g, rank, op, op, {}, true, Top(op.parent));
      HoistedRunIsMeaning(g, rank, sem, ex, op, objs);
    } else {
      PlainRunIsMeaning(g, rank, sem, ex, op, objs);
    }
  }

  lemma {:induction false} ShapeIsItsOwn(op: ObjectPlan)
    ensures SameShape(op, op)
    decreases op
  {
    forall i | HasChild(op, i) ensures SameShape(Child(op, i), Child(op, i)) { ShapeIsItsOwn(Child(op, i)); }
  }

  lemma {:induction false} SentIsBounded(op: ObjectPlan, op': ObjectPlan, r: map<Id, Id>)
    requires RemappedBy(op, op', r) && BoundedByFields(op)
    ensures BoundedByFields(op')
    decreases op
  {
    forall i | HasChild(op', i)
      ensures Child(op', i).parent == op'.fields[i].step && BoundedByFields(Child(op', i))
    {
      assert HasChild(op, i);
      SentIsBounded(Child(op, i), Child(op', i), r);
    }
  }

  /** What the script leaves of the tree feels no merge. */
  ghost predicate NoMergeIsFelt(g: Graph, op: ObjectPlan)
  {
    forall rank: Id -> nat :: Ranked(g, rank) ==> StepsIn(g, op) && AllApart(g, rank, op, Top(op.parent))
  }

  lemma LaidOutIsRunnable(g: Graph, rank: Id -> nat, op: ObjectPlan, hoist: bool)
    requires Ranked(g, rank) && LaidOut(g, rank, op, hoist)
    ensures Runnable(g, op) && op.hoistedOut == {}
  {
    if hoist { HoistedIsRunnable(g, rank, op, {}, true); } else { PlainIsRunnable(g, rank, op); }
  }

  /** The optimize hooks' part: over the plan their script leaves the tree means what was planned. */
  lemma OptimizedMeansPlanned<V(!new)>(start: Snapshot, rank: Id -> nat, script: seq<Rewrite>, mid: Id -> nat, sem: (Op, seq<V>) -> V, ex: Explode<V>,
                                       op: ObjectPlan, sent: map<Id, Id>, objs: seq<V>)
    requires Ranked(start.nodes, rank) && start.dead == {} && Legal(start, script) && SentBy(start, script, sent) && Ranked(LiveAfter(start, script), mid)
    requires StepsIn(start.nodes, op) && NoEffects(op) && BoundedByFields(op) && ValidExplode(ex)
    requires AlikeInBuckets(start, Identity(start.nodes), sem, op, script)
    ensures StepsIn(LiveAfter(start, script), RemapObjectPlan(op, sent))
    ensures Meaning(LiveAfter(start, script), mid, sem, ex, [], RemapObjectPlan(op, sent), objs) == Meaning(start.nodes, rank, sem, ex, [], op, objs)
  {
    StartStands(start, rank, op);
    SentAlike(start, script, op, sent);
    ScriptKeepsMeaning(start, Identity(start.nodes), sem, ex, op, script, objs, rank, mid);
  }

  lemma StartStands(start: Snapshot, rank: Id -> nat, op: ObjectPlan)
    requires Ranked(start.nodes, rank) && start.dead == {} && StepsIn(start.nodes, op)
    ensures LiveOf(start.nodes, start.dead) == start.nodes && Standing(start, Identity(start.nodes), op)
  {
    ConsumedAreIn(start.nodes, op, |op.fields|);
  }

  lemma SentAlike(start: Snapshot, script: seq<Rewrite>, op: ObjectPlan, sent: map<Id, Id>)
    requires StepsIn(start.nodes, op) && SentBy(start, script, sent)
    ensures RemapObjectPlan(op, Identity(start.nodes)) == op
    ensures RemapObjectPlan(op, Images(start, Identity(start.nodes), script)) == RemapObjectPlan(op, sent)
  {
    ConsumedAreIn(start.nodes, op, |op.fields|);
    RemapsAlike(op, Identity(start.nodes), map[]);
    RemapNothing(op);
    RemapsAlike(op, Images(start, Identity(start.nodes), script), sent);
  }

  /** Running the finalized plan yields, at every field of every bucket, what was planned: when the hooks' replacements keep
      the values where they are used, no merge is felt, and, with hoisting on, the tree is seamless. */
  lemma FinalizedRunIsPlanned<V(!new)>(start: Snapshot, rank: Id -> nat, script: seq<Rewrite>, sem: (Op, seq<V>) -> V, ex: Explode<V>, op: ObjectPlan,
                                       g': Graph, rank': Id -> nat, op': ObjectPlan, sent: map<Id, Id>, fold: map<Id, Id>, hoist: bool, objs: seq<V>)
    requires Ranked(start.nodes, rank) && start.dead == {} && Legal(start, script) && StepsIn(start.nodes, op) && NoEffects(op) && BoundedByFields(op)
    requires ComesFrom(start, script, op, g', op', sent, fold) && Ranked(g', rank') && LaidOut(g', rank', op', hoist) && ValidExplode(ex)
    requires AlikeInBuckets(start, Identity(start.nodes), sem, op, script)
    requires NoMergeIsFelt(LiveAfter(start, script), RemapObjectPlan(op, sent))
    requires hoist ==> SeamlessPlan(g', rank', op', {}, Top(op'.parent))
    ensures Runnable(g', op') && op'.hoistedOut == {}
    ensures RunPlan(g', sem, ex, [], op', objs, map[]) == Meaning(start.nodes, rank, sem, ex, [], op, objs)
  {
    var live, t := LiveAfter(start, script), RemapObjectPlan(op, sent);
    var mid := LiveAfterIsRanked(start, script, g', fold);
    OptimizedMeansPlanned(start, rank, script, mid, sem, ex, op, sent, objs);
    RemappedIsBounded(op, sent);
    MergedMeansTheSame(live, mid, g', rank', fold, sem, ex, t, op', objs);
    SentIsBounded(t, op', fold);
    LaidOutRunIsMeaning(g', rank', sem, ex, op', hoist, objs);
  }

  lemma LiveAfterIsRanked(start: Snapshot, script: seq<Rewrite>, g': Graph, fold: map<Id, Id>) returns (rank: Id -> nat)
    requires MergedAndTrimmed(LiveAfter(start, script), g', fold)
    ensures Ranked(LiveAfter(start, script), rank)
  {
    var merged, keep :| Acyclic(merged) && Merged(merged) && Quotient(LiveAfter(start, script), merged, fold) && keep <= merged.Keys
                        && ClosedUpTo(merged, {}, keep) && g' == Restricted(merged, keep);
    rank := FoldedIsRanked(LiveAfter(start, script), merged, fold);
  }

  /** A fold's images show that the graph it folds has no cycle either. */
  lemma FoldedIsRanked(g: Graph, merged: Graph, fold: map<Id, Id>) returns (rank: Id -> nat)
    requires Quotient(g, merged, fold) && Acyclic(merged)
    ensures Ranked(g, rank)
  {
    var mid: Id -> nat :| Ranked(merged, mid);
    rank := (s: Id) => if s in fold then mid(fold[s]) else 0;
    forall s, d | s in g && d in g[s].deps
      ensures d in g && rank(d) < rank(s)
    {
      assert ImageOf(g, merged, fold, s);
      var i :| 0 <= i < |g[s].deps| && g[s].deps[i] == d;
      assert MapIds(fold, g[s].deps)[i] == fold[d] && fold[d] in merged[fold[s]].deps;
    }
  }

  /** With hooks that rewrite nothing either condition is exact, given the other. */
  lemma FinalizedRunIsPlannedIff(g: Graph, rank: Id -> nat, g': Graph, rank': Id -> nat, r: map<Id, Id>, op: ObjectPlan, op': ObjectPlan, hoist: bool)
    requires Ranked(g, rank) && Ranked(g', rank') && MergedAndTrimmed(g, g', r) && StepsIn(g, op) && BoundedByFields(op)
    requires RemappedBy(op, op', r) && LaidOut(g', rank', op', hoist)
    ensures Runnable(g', op') && op'.hoistedOut == {}
    ensures AllApart(g, rank, op, Top(op.parent)) ==>
              (RunsAsPlanned(g, rank, g', op, op') <==> (hoist ==> SeamlessPlan(g', rank', op', {}, Top(op'.parent))))
    ensures (hoist ==> SeamlessPlan(g', rank', op', {}, Top(op'.parent))) ==>
              (RunsAsPlanned(g, rank, g', op, op') <==> AllApart(g, rank, op, Top(op.parent)))
  {
    LaidOutIsRunnable(g', rank', op', hoist);
    SentIsBounded(op, op', r);
    if hoist ==> SeamlessPlan(g', rank', op', {}, Top(op'.parent)) {
      SeamlessRunsAsMerged(g, rank, g', rank', op, op', hoist);
      MergingIsExact(g, rank, g', rank', r, op, op');
    } else if AllApart(g, rank, op, Top(op.parent)) && RunsAsPlanned(g, rank, g', op, op') {
      PlannedRunIsSeamless(g, rank, g', rank', r, op, op');
    }
  }

  /** Over all nests of buckets and all objects the finalized tree yields what was planned. */
  ghost predicate RunsAsPlanned(g: Graph, rank: Id -> nat, g': Graph, op: ObjectPlan, op': ObjectPlan)
    requires Ranked(g, rank) && StepsIn(g, op) && Runnable(g', op') && op'.hoistedOut == {}
  {
    forall ex: Explode<Term>, objs: seq<Term> :: ValidExplode(ex) ==> RunIsPlanned(g, rank, g', op, op', ex, objs)
  }

  ghost predicate RunIsPlanned(g: Graph, rank: Id -> nat, g': Graph, op: ObjectPlan, op': ObjectPlan, ex: Explode<Term>, objs: seq<Term>)
    requires Ranked(g, rank) && StepsIn(g, op) && Runnable(g', op') && op'.hoistedOut == {} && ValidExplode(ex)
  {
    RunPlan(g', Free(), ex, [], op', objs, map[]) == Meaning(g, rank, Free(), ex, [], op, objs)
  }

  lemma SeamlessRunsAsMerged(g: Graph, rank: Id -> nat, g': Graph, rank': Id -> nat, op: ObjectPlan, op': ObjectPlan, hoist: bool)
    requires Ranked(g, rank) && Ranked(g', rank') && StepsIn(g, op) && LaidOut(g', rank', op', hoist) && BoundedByFields(op')
    requires Runnable(g', op') && op'.hoistedOut == {} && (hoist ==> SeamlessPlan(g', rank', op', {}, Top(op'.parent)))
    ensures RunsAsPlanned(g, rank, g', op, op') <==>
              (forall ex: Explode<Term>, objs: seq<Term> :: ValidExplode(ex) ==> SameMeaning(g, rank, g', rank', op, op', ex, objs))
  {
    forall ex: Explode<Term>, objs: seq<Term> | ValidExplode(ex)
      ensures RunIsPlanned(g, rank, g', op, op', ex, objs) <==> SameMeaning(g, rank, g', rank', op, op', ex, objs)
    {
      LaidOutRunIsMeaning(g', rank', Free(), ex, op', hoist, objs);
    }
  }

  lemma RunsAt(g: Graph, rank: Id -> nat, g': Graph, op: ObjectPlan, op': ObjectPlan, ex: Explode<Term>, objs: seq<Term>)
    requires Ranked(g, rank) && StepsIn(g, op) && Runnable(g', op') && op'.hoistedOut == {} && RunsAsPlanned(g, rank, g', op, op') && ValidExplode(ex)
    ensures RunIsPlanned(g, rank, g', op, op', ex, objs)
  {
  }

  lemma PlannedRunIsSeamless(g: Graph, rank: Id -> nat, g': Graph, rank': Id -> nat, r: map<Id, Id>, op: ObjectPlan, op': ObjectPlan)
    requires Ranked(g, rank) && Ranked(g', rank') && MergedAndTrimmed(g, g', r) && StepsIn(g, op) && BoundedByFields(op) && BoundedByFields(op')
    requires RemappedBy(op, op', r) && LaidOut(g', rank', op', true) && Runnable(g', op') && op'.hoistedOut == {}
    requires AllApart(g, rank, op, Top(op.parent)) && RunsAsPlanned(g, rank, g', op, op')
    ensures SeamlessPlan(g', rank', op', {}, Top(op'.parent))
  {
    OneItemIsOneEach();
    MergedHasSameMeaning(g, rank, g', rank', r, OneItem(), op, op', [Obj(0)]);
    RunsAt(g, rank, g', op, op', OneItem(), [Obj(0)]);
    MeantRunIsSeamless(g, rank, g', rank', op, op', OneItem());
  }

  lemma MeantRunIsSeamless(g: Graph, rank: Id -> nat, g': Graph, rank': Id -> nat, op: ObjectPlan, op': ObjectPlan, ex: Explode<Term>)
    requires Ranked(g, rank) && Ranked(g', rank') && StepsIn(g, op) && LaidOut(g', rank', op', true) && Runnable(g', op') && BoundedByFields(op')
    requires op'.hoistedOut == {} && OneEach(ex)
    requires RunIsPlanned(g, rank, g', op, op', ex, [Obj(0)]) && SameMeaning(g, rank, g', rank', op, op', ex, [Obj(0)])
    ensures SeamlessPlan(g', rank', op', {}, Top(op'.parent))
  {
    AgreeingTopIsSeamless(g', rank', op', ex);
    ShapeIsItsOwn(op');
    SeamlessWhenHoisted(g', rank', op', op', {}, true, Top(op'.parent));
  }
}
