/** Two small plans the passes change: one laid out with and without hoisting, one deduplicated. */
module RewriteLimits {
  import opened Wrappers
  import opened StepGraph
  import opened Dag
  import opened Layers
  import opened ExecutePlan
  import opened RewriteMeaning
  import opened HoistLimits
  import Finalize

  lemma FriendsStepsAreIn(g: Graph, rank: Id -> nat, me: ObjectPlan)
    requires FriendsChain(g, rank) && FriendsTree(me)
    ensures StepsIn(g, me)
  {
    assert Targets(me) == [Id(1), Id(2)];
    forall i | HasChild(me, i) ensures StepsIn(g, Child(me, i)) { assert i == 0 && Targets(Child(me, 0)) == [Id(3)]; }
  }

  lemma {:induction false} ShapesAgree(a: ObjectPlan, b: ObjectPlan, c: ObjectPlan)
    requires SameShape(a, b) && SameShape(a, c)
    ensures SameShape(b, c)
    decreases a
  {
    forall i | HasChild(b, i) && HasChild(c, i)
      ensures SameShape(Child(b, i), Child(c, i))
    {
      assert HasChild(a, i);
      ShapesAgree(Child(a, i), Child(b, i), Child(c, i));
    }
  }

  lemma FriendsAreBounded(me: ObjectPlan)
    requires FriendsTree(me)
    ensures BoundedByFields(me)
  {
    forall i | HasChild(me, i) ensures Child(me, i).parent == me.fields[i].step && BoundedByFields(Child(me, i)) {
      assert i == 0 && !HasChild(Child(me, 0), 0);
    }
  }

  /** `{ me { friends { initial } firstName } }` without and with hoisting: the two layouts yield the same columns over all
      nests of buckets exactly when `friends` is a single friend and no list. */
  method LayOutFriends(isList: bool) returns (plain: ObjectPlan, hoisted: ObjectPlan)
    ensures Ranked(FriendsGraph(), FriendsRank()) && FriendsTree(plain) && OffAndOn(FriendsGraph(), FriendsRank(), plain, hoisted)
    ensures plain.fields[0].isList == isList && Runnable(FriendsGraph(), plain) && Runnable(FriendsGraph(), hoisted)
    ensures (forall ex: Explode<Term>, objs: seq<Term> :: ValidExplode(ex) ==> SameRun(FriendsGraph(), Free(), ex, plain, hoisted, objs)) <==> !isList
  {
    var g := FriendsGraph();
    ghost var rank := FriendsRank();
    var friends := ObjectPlan(Id(1), [FieldPlan("initial", Id(3), false, None)], [], [], {}, []);
    var me := ObjectPlan(Id(0), [FieldPlan("friends", Id(1), isList, Some(friends)), FieldPlan("firstName", Id(2), false, None)], [], [], {}, []);
    FriendsIsChain();
    FriendsStepsAreIn(g, rank, me);
    plain := Finalize.LayOut(g, rank, me, false);
    hoisted := Finalize.LayOut(g, rank, me, true);
    FriendsShape(me, plain);
    ShapesAgree(me, plain, hoisted);
    FriendsAreBounded(plain);
    FriendsSeamIff(g, rank, plain, hoisted);
    HoistingIsExact(g, rank, plain, hoisted);
  }

  /** A list loaded over a source of its own. */
  method LoadOnce(p: Plan, source: Op, list: Op) returns (at: Id, loaded: Id)
    requires p.Valid() && p.Unswept() && p.dead == {}
    modifies p
    ensures p.Valid() && p.Unswept() && p.dead == {} && at == Id(|old(p.steps)|) && loaded == Id(|old(p.steps)| + 1)
    ensures p.nodes == old(p.nodes)[at := Node(source, [])][loaded := Node(list, [at])] && |p.steps| == |old(p.steps)| + 2
  {
    at := p.AddStep(source, []);
    loaded := p.AddStep(list, [at]);
  }

  /** A list loaded at the top, where it bounds the child's bucket, and loaded again inside that bucket. */
  method LoadTwice(source: Op, list: Op, item: Op) returns (p: Plan)
    requires source.dedupable && list.dedupable
    ensures fresh(p) && p.Valid() && p.dead == {} && LoadsItsOwnListAgain(p.Live()) && Acyclic(p.Live())
  {
    p := new Plan();
    var top, bound := LoadOnce(p, source, list);
    var again, reload := LoadOnce(p, source, list);
    AllLive(p.nodes);
    var reader := p.AddStep(item, [reload]);
    assert bound == Id(1) && reload == Id(3) && reader == Id(4);
    AllLive(p.nodes);
  }

  lemma AllLive(nodes: Graph)
    ensures LiveOf(nodes, {}) == nodes
  {
  }

  /** Deduplicated, the step that reads the second list reads the bucket's own object. */
  method DedupItsOwnList(source: Op, list: Op, item: Op) returns (remap: map<Id, Id>, ghost g: Graph, ghost g': Graph)
    requires source.dedupable && list.dedupable
    ensures LoadsItsOwnListAgain(g) && Quotient(g, g', remap) && Acyclic(g) && Acyclic(g')
    ensures forall rank, rank' :: Ranked(g, rank) && Ranked(g', rank') ==> ReadsItsOwnObject(g, rank, g', rank', remap)
  {
    var p := LoadTwice(source, list, item);
    g := p.Live();
    ghost var walked;
    remap, walked := p.Deduplicate();
    g' := p.Live();
    forall rank: Id -> nat, rank': Id -> nat | Ranked(g, rank) && Ranked(g', rank') ensures ReadsItsOwnObject(g, rank, g', rank', remap) {
      DedupOverItsOwnListBreaks(g, rank, g', rank', remap);
    }
  }

  /** Step 4 no longer means in the bucket bounded by step 1 what it meant before. */
  ghost predicate ReadsItsOwnObject(g: Graph, rank: Id -> nat, g': Graph, rank': Id -> nat, remap: map<Id, Id>)
    requires LoadsItsOwnListAgain(g) && Ranked(g, rank) && Ranked(g', rank') && Quotient(g, g', remap)
  {
    !forall o: Term :: Eval(g', rank', Free(), map[remap[Id(1)] := o], remap[Id(4)]) == Eval(g, rank, Free(), map[Id(1) := o], Id(4))
  }
}
