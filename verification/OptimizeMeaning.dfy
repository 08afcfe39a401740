/** What the optimize hooks may do to a planned tree: replacements that keep the value at the bucket positions where the
    replaced step is used keep what the tree means. */
module OptimizeMeaning {
  import opened Wrappers
  import opened StepGraph
  import opened Dag
  import opened Layers
  import opened ExecutePlan
  import opened RewriteMeaning
  import opened TreeMeaning
  import opened Finalize

  // ----- one replacement, at one bucket position -----

  function SwapOf(gone: Id, to: Id, s: Id): Id
  {
    if s == gone then to else s
  }

  /** Where the two steps have one value the swap is not felt, whether the replaced step is computed there or is the
      bucket's boundary itself. */
  lemma {:induction false} AlikeSwapKeepsBucketValue<V>(g: Graph, rank: Id -> nat, g': Graph, rank': Id -> nat, gone: Id, to: Id, sem: (Op, seq<V>) -> V,
                                                        p: Id, o: V, s: Id)
    requires Ranked(g, rank) && g' == Replaced(g, gone, to) && Ranked(g', rank') && gone in g && to in g && to != gone && s in g
    requires Eval(g, rank, sem, map[p := o], to) == Eval(g, rank, sem, map[p := o], gone)
    ensures Eval(g', rank', sem, map[SwapOf(gone, to, p) := o], SwapOf(gone, to, s)) == Eval(g, rank, sem, map[p := o], s)
    decreases rank'(SwapOf(gone, to, s)), s == gone
  {
    var p' := SwapOf(gone, to, p);
    if s == gone {
      AlikeSwapKeepsBucketValue(g, rank, g', rank', gone, to, sem, p, o, to);
    } else if s != p' {
      var args := seq(|g[s].deps|, i requires 0 <= i < |g[s].deps| => Eval(g, rank, sem, map[p := o], g[s].deps[i]));
      forall i | 0 <= i < |args|
        ensures args[i] == Eval(g', rank', sem, map[p' := o], g'[s].deps[i])
      {
        assert g'[s].deps[i] == SwapOf(gone, to, g[s].deps[i]) && g'[s].deps[i] in g'[s].deps && g[s].deps[i] in g[s].deps;
        AlikeSwapKeepsBucketValue(g, rank, g', rank', gone, to, sem, p, o, g[s].deps[i]);
      }
      EvalByDeps(g', rank', sem, map[p' := o], s, args);
    }
  }

  /** Where the replaced step is not used the swap is not felt either. */
  lemma UnusedSwapKeepsBucketValue<V>(g: Graph, rank: Id -> nat, g': Graph, rank': Id -> nat, gone: Id, to: Id, sem: (Op, seq<V>) -> V,
                                      p: Id, o: V, s: Id)
    requires Ranked(g, rank) && g' == Replaced(g, gone, to) && Ranked(g', rank') && s in g && p in g
    requires gone != p && gone !in Scope(g, rank, {p}, s)
    ensures s != gone && Eval(g', rank', sem, map[p := o], s) == Eval(g, rank, sem, map[p := o], s)
  {
    ScopeIsClosed(g, rank, {p}, s);
    var r, within := Identity(g), Scope(g, rank, {p}, s) + {p};
    assert s in within by { if s != p { assert s in Scope(g, rank, {p}, s); } }
    forall x | x in within && x != p
      ensures forall d :: d in g[x].deps ==> d in within
      ensures ImageOf(g, g', r, x)
    {
      forall i | 0 <= i < |g[x].deps| ensures g'[x].deps[i] == g[x].deps[i] { assert g[x].deps[i] in g[x].deps; }
      assert g'[x].deps == MapIds(r, g[x].deps);
    }
    ImagesAgree(g, rank, g', rank', r, sem, map[p := o], map[p := o], within, s);
  }

  // ----- one replacement, over the whole tree -----

  /** Whether the field's value at a bucket position uses the step. */
  ghost predicate Uses(g: Graph, rank: Id -> nat, op: ObjectPlan, i: nat, x: Id)
    requires Ranked(g, rank) && StepsIn(g, op) && i < |op.fields|
  {
    assert Targets(op)[i] == op.fields[i].step && op.fields[i].step in Targets(op);
    x == op.parent || x in Scope(g, rank, {op.parent}, op.fields[i].step)
  }

  /** At an object of the bucket, a field that uses `gone` finds the value of `to` equal to its value. */
  ghost predicate AlikeWhereUsed<V>(g: Graph, rank: Id -> nat, sem: (Op, seq<V>) -> V, op: ObjectPlan, o: V, i: nat, gone: Id, to: Id)
    requires Ranked(g, rank) && StepsIn(g, op) && i < |op.fields| && gone in g && to in g
  {
    Uses(g, rank, op, i, gone) ==> Eval(g, rank, sem, map[op.parent := o], to) == Eval(g, rank, sem, map[op.parent := o], gone)
  }

  ghost predicate SwapsAlike<V(!new)>(g: Graph, rank: Id -> nat, sem: (Op, seq<V>) -> V, op: ObjectPlan, chain: Chain, gone: Id, to: Id)
    requires Ranked(g, rank) && StepsIn(g, op) && gone in g && to in g
    decreases op
  {
    && (forall i, place: seq<V> :: 0 <= i < |op.fields| && |place| == Level(chain) + 1 ==>
          AlikeWhereUsed(g, rank, sem, op, Seen(g, rank, sem, chain, place, op.parent), i, gone, to))
    && forall i :: HasChild(op, i) ==> SwapsAlike(g, rank, sem, Child(op, i), BareChain(op, chain, i), gone, to)
  }

  lemma SwappedFieldIsSame<V>(g: Graph, rank: Id -> nat, g': Graph, rank': Id -> nat, sem: (Op, seq<V>) -> V, op: ObjectPlan, op': ObjectPlan,
                              gone: Id, to: Id, o: V, i: nat)
    requires Ranked(g, rank) && g' == Replaced(g, gone, to) && Ranked(g', rank') && gone in g && to in g && to != gone
    requires StepsIn(g, op) && StepsIn(g', op') && RemappedBy(op, op', map[gone := to]) && i < |op.fields|
    requires AlikeWhereUsed(g, rank, sem, op, o, i, gone, to)
    ensures SameAt(g, rank, g', rank', sem, op, op', o, i)
  {
    var s := op.fields[i].step;
    assert Targets(op)[i] == s && Targets(op')[i] == op'.fields[i].step;
    assert s in Targets(op) && op'.fields[i].step in Targets(op');
    assert SwapOf(gone, to, s) == op'.fields[i].step && SwapOf(gone, to, op.parent) == op'.parent;
    if Uses(g, rank, op, i, gone) {
      AlikeSwapKeepsBucketValue(g, rank, g', rank', gone, to, sem, op.parent, o, s);
    } else {
      UnusedSwapKeepsBucketValue(g, rank, g', rank', gone, to, sem, op.parent, o, s);
    }
  }

  lemma {:induction false} SwappedFieldsAreSame<V(!new)>(g: Graph, rank: Id -> nat, g': Graph, rank': Id -> nat, sem: (Op, seq<V>) -> V,
                                                         op: ObjectPlan, op': ObjectPlan, chain: Chain, gone: Id, to: Id)
    requires Ranked(g, rank) && g' == Replaced(g, gone, to) && Ranked(g', rank') && gone in g && to in g && to != gone
    requires StepsIn(g, op) && StepsIn(g', op') && RemappedBy(op, op', map[gone := to]) && SwapsAlike(g, rank, sem, op, chain, gone, to)
    ensures SameFields(g, rank, g', rank', sem, op, op', chain)
    decreases op
  {
    forall i, place: seq<V> | 0 <= i < |op.fields| && |place| == Level(chain) + 1
      ensures SameAt(g, rank, g', rank', sem, op, op', Seen(g, rank, sem, chain, place, op.parent), i)
    {
      SwappedFieldIsSame(g, rank, g', rank', sem, op, op', gone, to, Seen(g, rank, sem, chain, place, op.parent), i);
    }
    forall i | HasChild(op, i) && HasChild(op', i) ensures SameFields(g, rank, g', rank', sem, Child(op, i), Child(op', i), BareChain(op, chain, i)) {
      SwappedFieldsAreSame(g, rank, g', rank', sem, Child(op, i), Child(op', i), BareChain(op, chain, i), gone, to);
    }
  }

  // ----- remapped trees -----

  lemma {:induction false} ConsumedStepsAreIn(g: Graph, op: ObjectPlan, r: map<Id, Id>)
    requires NoEffects(op) && forall s :: s in Consumed(op) ==> SendTo(r, s) in g
    ensures StepsIn(g, RemapObjectPlan(op, r))
    decreases op
  {
    var t := RemapObjectPlan(op, r);
    forall x | x in Targets(t)
      ensures x in g
    {
      var i :| 0 <= i < |Targets(t)| && Targets(t)[i] == x;
      FieldIsConsumed(op, i, |op.fields|);
    }
    forall i | HasChild(t, i)
      ensures StepsIn(g, Child(t, i))
    {
      FieldIsConsumed(op, i, |op.fields|);
      ConsumedStepsAreIn(g, Child(op, i), r);
    }
  }

  /** Remaps that send the tree's steps alike give one tree. */
  lemma {:induction false} RemapsAlike(op: ObjectPlan, a: map<Id, Id>, b: map<Id, Id>)
    requires forall s :: s in Consumed(op) ==> SendTo(a, s) == SendTo(b, s)
    ensures RemapObjectPlan(op, a) == RemapObjectPlan(op, b)
    decreases op
  {
    forall i | 0 <= i < |op.fields|
      ensures RemapObjectPlan(op, a).fields[i] == RemapObjectPlan(op, b).fields[i]
    {
      FieldIsConsumed(op, i, |op.fields|);
      if HasChild(op, i) { RemapsAlike(Child(op, i), a, b); }
    }
  }

  lemma {:induction false} RemapNothing(op: ObjectPlan)
    ensures RemapObjectPlan(op, map[]) == op
    decreases op
  {
    forall i | 0 <= i < |op.fields|
      ensures RemapObjectPlan(op, map[]).fields[i] == op.fields[i]
    {
      if HasChild(op, i) { RemapNothing(Child(op, i)); }
    }
  }

  lemma {:induction false} RemappedOnce(op: ObjectPlan, r: map<Id, Id>, next: map<Id, Id>, once: map<Id, Id>)
    requires forall s :: s in Consumed(op) ==> SendTo(next, s) == SendTo(once, SendTo(r, s))
    ensures RemappedBy(RemapObjectPlan(op, r), RemapObjectPlan(op, next), once)
    decreases op
  {
    var t, t' := RemapObjectPlan(op, r), RemapObjectPlan(op, next);
    forall i | 0 <= i < |op.fields|
      ensures SameField(t.fields[i].(step := SendTo(once, t.fields[i].step)), t'.fields[i])
    {
      FieldIsConsumed(op, i, |op.fields|);
    }
    forall i | HasChild(t, i) && HasChild(t', i)
      ensures RemappedBy(Child(t, i), Child(t', i), once)
    {
      FieldIsConsumed(op, i, |op.fields|);
      RemappedOnce(Child(op, i), r, next, once);
    }
  }

  lemma {:induction false} RemappedIsBounded(op: ObjectPlan, r: map<Id, Id>)
    requires BoundedByFields(op)
    ensures BoundedByFields(RemapObjectPlan(op, r))
    decreases op
  {
    var t := RemapObjectPlan(op, r);
    forall i | HasChild(t, i)
      ensures Child(t, i).parent == t.fields[i].step && BoundedByFields(Child(t, i))
    {
      RemappedIsBounded(Child(op, i), r);
    }
  }

  // ----- a whole script -----

  /** The live plan before a replacement takes effect: the fresh step is registered already. */
  ghost function LiveBefore(now: Snapshot, w: Rewrite): Graph
  {
    LiveOf(Registered(now, w), now.dead)
  }

  /** Where the planned steps are sent once the replacement is made. */
  ghost function Resent(now: Snapshot, r: map<Id, Id>, w: Rewrite): map<Id, Id>
  {
    Redirected(WithFresh(r, w, Survivor(w, now.count)), w.gone, Survivor(w, now.count))
  }

  /** Every replacement of the script keeps the value, at each object its buckets can hold, wherever a field of the tree
      -- as it stands by then -- uses the step replaced. */
  ghost predicate AlikeInBuckets<V(!new)>(now: Snapshot, r: map<Id, Id>, sem: (Op, seq<V>) -> V, op: ObjectPlan, script: seq<Rewrite>)
    decreases |script|
  {
    script == [] ||
    var w := script[0];
    && SwapIsAlike(now, r, sem, op, w)
    && AlikeInBuckets(Rewritten(now, w), Resent(now, r, w), sem, op, script[1..])
  }

  ghost predicate SwapIsAlike<V(!new)>(now: Snapshot, r: map<Id, Id>, sem: (Op, seq<V>) -> V, op: ObjectPlan, w: Rewrite)
  {
    var g, to, t := LiveBefore(now, w), Survivor(w, now.count), RemapObjectPlan(op, r);
    && StepsIn(g, t) && w.gone in g && to in g
    && forall rank: Id -> nat :: Ranked(g, rank) ==> SwapsAlike(g, rank, sem, t, Top(t.parent), w.gone, to)
  }

  /** Where the hooks stand between two replacements: everything the tree consumes is sent to a live step. */
  ghost predicate Standing(now: Snapshot, r: map<Id, Id>, op: ObjectPlan)
  {
    && Acyclic(now.nodes) && now.dead <= now.nodes.Keys
    && (forall s, d :: s in LiveOf(now.nodes, now.dead) && d in now.nodes[s].deps ==> d in LiveOf(now.nodes, now.dead))
    && forall s :: s in Consumed(op) ==> s in r && s in now.nodes && r[s] in LiveOf(now.nodes, now.dead)
  }

  lemma RegisteredIsSound(now: Snapshot, w: Rewrite)
    requires Acyclic(now.nodes) && now.dead <= now.nodes.Keys && Allowed(now, w)
    requires forall s, d :: s in LiveOf(now.nodes, now.dead) && d in now.nodes[s].deps ==> d in LiveOf(now.nodes, now.dead)
    ensures Acyclic(Registered(now, w)) && now.dead <= Registered(now, w).Keys
    ensures w.gone in LiveBefore(now, w) && Survivor(w, now.count) in LiveBefore(now, w) && Survivor(w, now.count) != w.gone
    ensures forall s, d :: s in LiveBefore(now, w) && d in LiveBefore(now, w)[s].deps ==> d in LiveBefore(now, w)
    ensures forall x :: x in LiveOf(now.nodes, now.dead) ==> x in LiveBefore(now, w) && LiveBefore(now, w)[x] == now.nodes[x]
  {
    if w.Fresh? { NewStepStaysAcyclic(now.nodes, Id(now.count), Node(w.op, w.deps)); }
  }

  lemma RewrittenIsReplaced(now: Snapshot, w: Rewrite)
    requires Acyclic(now.nodes) && now.dead <= now.nodes.Keys && Allowed(now, w)
    requires forall s, d :: s in LiveOf(now.nodes, now.dead) && d in now.nodes[s].deps ==> d in LiveOf(now.nodes, now.dead)
    ensures var next := Rewritten(now, w); var live := LiveOf(next.nodes, next.dead);
            && Acyclic(next.nodes) && next.dead <= next.nodes.Keys && live == Replaced(LiveBefore(now, w), w.gone, Survivor(w, now.count))
            && forall s, d :: s in live && d in live[s].deps ==> d in live
  {
    RegisteredIsSound(now, w);
    RepointedIsAcyclic(Registered(now, w), now.dead + {w.gone}, w.gone, Survivor(w, now.count));
    LiveAfterEradicate(Registered(now, w), now.dead, w.gone, Survivor(w, now.count));
  }

  lemma ResentAt(now: Snapshot, r: map<Id, Id>, w: Rewrite, s: Id)
    requires s in r && (w.Fresh? ==> s != Id(now.count))
    ensures s in Resent(now, r, w) && Resent(now, r, w)[s] == SwapOf(w.gone, Survivor(w, now.count), r[s])
  {
  }

  lemma SwappedIsLive(g: Graph, gone: Id, to: Id, s: Id)
    requires s in g && to in g && to != gone
    ensures SwapOf(gone, to, s) in Replaced(g, gone, to)
  {
  }

  lemma ConsumedStaysLive(now: Snapshot, r: map<Id, Id>, op: ObjectPlan, w: Rewrite, s: Id)
    requires Standing(now, r, op) && Allowed(now, w) && s in Consumed(op)
    ensures s in Resent(now, r, w) && s in Rewritten(now, w).nodes
    ensures Resent(now, r, w)[s] in LiveOf(Rewritten(now, w).nodes, Rewritten(now, w).dead)
    ensures SendTo(Resent(now, r, w), s) == SendTo(map[w.gone := Survivor(w, now.count)], SendTo(r, s))
  {
    assert s in r && s in now.nodes && r[s] in LiveOf(now.nodes, now.dead);
    ResentAt(now, r, w, s);
    RegisteredIsSound(now, w);
    RewrittenIsReplaced(now, w);
    SwappedIsLive(LiveBefore(now, w), w.gone, Survivor(w, now.count), r[s]);
    RepointedKeys(Registered(now, w), now.dead + {w.gone}, w.gone, Survivor(w, now.count));
  }

  lemma StandsAfter(now: Snapshot, r: map<Id, Id>, op: ObjectPlan, w: Rewrite)
    requires Standing(now, r, op) && Allowed(now, w)
    ensures Standing(Rewritten(now, w), Resent(now, r, w), op)
    ensures forall s :: s in Consumed(op) ==> SendTo(Resent(now, r, w), s) == SendTo(map[w.gone := Survivor(w, now.count)], SendTo(r, s))
  {
    RewrittenIsReplaced(now, w);
    forall s | s in Consumed(op)
      ensures s in Resent(now, r, w) && s in Rewritten(now, w).nodes
      ensures Resent(now, r, w)[s] in LiveOf(Rewritten(now, w).nodes, Rewritten(now, w).dead)
      ensures SendTo(Resent(now, r, w), s) == SendTo(map[w.gone := Survivor(w, now.count)], SendTo(r, s))
    {
      ConsumedStaysLive(now, r, op, w, s);
    }
    IsStanding(Rewritten(now, w), Resent(now, r, w), op);
  }

  lemma IsStanding(now: Snapshot, r: map<Id, Id>, op: ObjectPlan)
    requires Acyclic(now.nodes) && now.dead <= now.nodes.Keys
    requires forall s, d :: s in LiveOf(now.nodes, now.dead) && d in LiveOf(now.nodes, now.dead)[s].deps ==> d in LiveOf(now.nodes, now.dead)
    requires forall s :: s in Consumed(op) ==> s in r && s in now.nodes && r[s] in LiveOf(now.nodes, now.dead)
    ensures Standing(now, r, op)
  {
    forall s, d | s in LiveOf(now.nodes, now.dead) && d in now.nodes[s].deps ensures d in LiveOf(now.nodes, now.dead) {
      assert LiveOf(now.nodes, now.dead)[s] == now.nodes[s];
    }
  }

  /** One replacement that keeps the values where they are used keeps what the tree means. */
  lemma RewriteKeepsMeaning<V(!new)>(now: Snapshot, r: map<Id, Id>, sem: (Op, seq<V>) -> V, ex: Explode<V>, op: ObjectPlan, w: Rewrite, objs: seq<V>,
                                     rank: Id -> nat, rank': Id -> nat)
    requires Standing(now, r, op) && Allowed(now, w) && NoEffects(op) && BoundedByFields(op) && ValidExplode(ex) && SwapIsAlike(now, r, sem, op, w)
    requires Ranked(LiveOf(now.nodes, now.dead), rank) && Ranked(LiveOf(Rewritten(now, w).nodes, Rewritten(now, w).dead), rank')
    requires StepsIn(LiveOf(now.nodes, now.dead), RemapObjectPlan(op, r))
    requires StepsIn(LiveOf(Rewritten(now, w).nodes, Rewritten(now, w).dead), RemapObjectPlan(op, Resent(now, r, w)))
    ensures Meaning(LiveOf(Rewritten(now, w).nodes, Rewritten(now, w).dead), rank', sem, ex, [], RemapObjectPlan(op, Resent(now, r, w)), objs)
         == Meaning(LiveOf(now.nodes, now.dead), rank, sem, ex, [], RemapObjectPlan(op, r), objs)
  {
    var was, g, live := LiveOf(now.nodes, now.dead), LiveBefore(now, w), LiveOf(Rewritten(now, w).nodes, Rewritten(now, w).dead);
    var to, t, t' := Survivor(w, now.count), RemapObjectPlan(op, r), RemapObjectPlan(op, Resent(now, r, w));
    RegisteredIsSound(now, w);
    RewrittenIsReplaced(now, w);
    StandsAfter(now, r, op, w);
    RemappedOnce(op, r, Resent(now, r, w), map[w.gone := to]);
    RemappedIsBounded(op, r);
    var mid := LiveIsRanked(Registered(now, w), now.dead);
    PartMeansTheSame(g, mid, was, rank, sem, ex, t, objs);
    SwappedFieldsAreSame(g, mid, live, rank', sem, t, t', Top(t.parent), w.gone, to);
    SameTopMeansTheSame(g, mid, live, rank', sem, ex, t, t', objs);
  }

  lemma LiveIsRanked(nodes: Graph, dead: set<Id>) returns (rank: Id -> nat)
    requires Acyclic(nodes) && forall s, d :: s in LiveOf(nodes, dead) && d in LiveOf(nodes, dead)[s].deps ==> d in LiveOf(nodes, dead)
    ensures Ranked(LiveOf(nodes, dead), rank)
  {
    rank :| Ranked(nodes, rank);
  }

  lemma TreeIsLive(now: Snapshot, r: map<Id, Id>, op: ObjectPlan)
    requires Standing(now, r, op) && NoEffects(op)
    ensures StepsIn(LiveOf(now.nodes, now.dead), RemapObjectPlan(op, r))
  {
    ConsumedStepsAreIn(LiveOf(now.nodes, now.dead), op, r);
  }

  /** A script that does throughout keeps it: what the tree means over the plan the script leaves is what it meant before. */
  lemma {:induction false} ScriptKeepsMeaning<V(!new)>(now: Snapshot, r: map<Id, Id>, sem: (Op, seq<V>) -> V, ex: Explode<V>, op: ObjectPlan,
                                                       script: seq<Rewrite>, objs: seq<V>, rank: Id -> nat, rank': Id -> nat)
    requires Standing(now, r, op) && Legal(now, script) && NoEffects(op) && BoundedByFields(op) && ValidExplode(ex) && AlikeInBuckets(now, r, sem, op, script)
    requires Ranked(LiveOf(now.nodes, now.dead), rank) && Ranked(LiveAfter(now, script), rank')
    ensures StepsIn(LiveOf(now.nodes, now.dead), RemapObjectPlan(op, r)) && StepsIn(LiveAfter(now, script), RemapObjectPlan(op, Images(now, r, script)))
    ensures Meaning(LiveAfter(now, script), rank', sem, ex, [], RemapObjectPlan(op, Images(now, r, script)), objs)
         == Meaning(LiveOf(now.nodes, now.dead), rank, sem, ex, [], RemapObjectPlan(op, r), objs)
    decreases |script|
  {
    TreeIsLive(now, r, op);
    if script == [] {
      RemappedIsBounded(op, r);
      PartMeansTheSame(LiveOf(now.nodes, now.dead), rank', LiveOf(now.nodes, now.dead), rank, sem, ex, RemapObjectPlan(op, r), objs);
    } else {
      var w := script[0];
      var next := Rewritten(now, w);
      StandsAfter(now, r, op, w);
      TreeIsLive(next, Resent(now, r, w), op);
      var mid := LiveIsRanked(next.nodes, next.dead);
      RewriteKeepsMeaning(now, r, sem, ex, op, w, objs, rank, mid);
      ScriptKeepsMeaning(next, Resent(now, r, w), sem, ex, op, script[1..], objs, mid, rank');
    }
  }
}
