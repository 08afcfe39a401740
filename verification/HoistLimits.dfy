/** Exactly which plans hoisting leaves unchanged, which it always does, and one it does not. */
module HoistLimits {
  import opened Wrappers
  import opened Sequences
  import opened StepGraph
  import opened Ordering
  import opened StepModel
  import opened Layers
  import opened ExecutePlan
  import opened RewriteMeaning

  // ----- the algebra of terms tells every seam -----

  /** At a bucket of its own -- the operation's, or one of a list's items -- each layer has an object of its own. */
  ghost predicate Apart(chain: Chain, place: seq<Term>)
    decreases chain
  {
    && Level(chain) < |place|
    && (chain.Top? || chain.isList ==> place[Level(chain)] == Obj(Level(chain)))
    && (chain.Under? ==> Apart(chain.outer, place))
  }

  ghost function Objects(n: nat): (place: seq<Term>)
  {
    seq(n + 1, k => Obj(k))
  }

  lemma {:induction false} ObjectsAreApart(chain: Chain, n: nat)
    requires Level(chain) <= n
    ensures Apart(chain, Objects(n))
    decreases chain
  {
    if chain.Under? { ObjectsAreApart(chain.outer, n); }
  }

  lemma {:induction false} SourceIsApart(chain: Chain, place: seq<Term>, s: Id)
    requires Apart(chain, place)
    ensures Apart(Source(chain, s), place)
    ensures var p := Source(chain, s); s == p.boundary ==> place[Level(p)] == Obj(Level(p))
    decreases chain
  {
    if FromAbove(chain, s) { SourceIsApart(chain.outer, place, s); }
  }

  /** Where the run holds one value at such a position, the walks agree. */
  lemma {:induction false} SameIsAgreed(g: Graph, rank: Id -> nat, a: Chain, s: Id, b: Chain, t: Id, place: seq<Term>)
    requires Ranked(g, rank) && s in g && t in g && Apart(a, place) && Apart(b, place)
    requires Seen(g, rank, Free(), a, place, s) == Seen(g, rank, Free(), b, place, t)
    ensures Agree(g, rank, a, s, b, t)
    decreases rank(s)
  {
    SourceIsApart(a, place, s);
    SourceIsApart(b, place, t);
    var p, q := Source(a, s), Source(b, t);
    if s != p.boundary && t != q.boundary {
      var left, right := SeenArgs(g, rank, Free(), p, place, s), SeenArgs(g, rank, Free(), q, place, t);
      assert App(g[s].op, left) == App(g[t].op, right);
      forall i | 0 <= i < |g[s].deps|
        ensures AgreeAt(g, rank, p, s, q, t, i)
      {
        assert left[i] == right[i];
        SameIsAgreed(g, rank, p, g[s].deps[i], q, g[t].deps[i], place);
      }
    }
  }

  /** One step: the run holds what the step means in its layer's bucket, at every position, exactly when the walk is
      seamless. */
  lemma SeamlessIff(g: Graph, rank: Id -> nat, chain: Chain, s: Id)
    requires Ranked(g, rank) && s in g && chain.boundary in g
    ensures (forall place: seq<Term> :: Level(chain) < |place| ==> HoldsWhatIsMeant(g, rank, chain, place, s))
       <==> Agree(g, rank, chain, s, Unlifted(chain), s)
  {
    if Agree(g, rank, chain, s, Unlifted(chain), s) {
      forall place: seq<Term> | Level(chain) < |place| ensures HoldsWhatIsMeant(g, rank, chain, place, s) {
        SeamlessIsMeant(g, rank, Free(), chain, place, s);
      }
    }
    var place := Objects(Level(chain));
    if HoldsWhatIsMeant(g, rank, chain, place, s) {
      ObjectsAreApart(chain, Level(chain));
      MeantIsSeamless(g, rank, chain, place, s);
    }
  }

  ghost predicate HoldsWhatIsMeant(g: Graph, rank: Id -> nat, chain: Chain, place: seq<Term>, s: Id)
    requires Ranked(g, rank) && s in g && chain.boundary in g && Level(chain) < |place|
  {
    Seen(g, rank, Free(), chain, place, s) == Eval(g, rank, Free(), map[chain.boundary := Seen(g, rank, Free(), chain, place, chain.boundary)], s)
  }

  lemma MeantIsSeamless(g: Graph, rank: Id -> nat, chain: Chain, place: seq<Term>, s: Id)
    requires Ranked(g, rank) && s in g && chain.boundary in g && Apart(chain, place) && HoldsWhatIsMeant(g, rank, chain, place, s)
    ensures Agree(g, rank, chain, s, Unlifted(chain), s)
  {
    UnliftedIsMeant(g, rank, Free(), chain, place, s);
    assert Apart(Unlifted(chain), place);
    SameIsAgreed(g, rank, chain, s, Unlifted(chain), s, place);
  }

  // ----- what a seam is under a list -----

  /** Following `s` through the layers it comes from, for the layer `home`: the walk meets no other bucket's object and
      computes `home`'s boundary nowhere as an ordinary step. */
  ghost predicate ReadsOwnObject(g: Graph, rank: Id -> nat, chain: Chain, home: Chain, s: Id)
    requires Ranked(g, rank) && s in g
    decreases rank(s)
  {
    var p := Source(chain, s);
    if s == p.boundary then p == home
    else s != home.boundary && forall d :: d in g[s].deps ==> ReadsOwnObject(g, rank, p, home, d)
  }

  ghost predicate OnTheWayUp(chain: Chain, home: Chain)
    decreases home
  {
    chain == home || (home.Under? && OnTheWayUp(chain, home.outer))
  }

  lemma {:induction false} SourceIsOnTheWayUp(chain: Chain, home: Chain, s: Id)
    requires OnTheWayUp(chain, home)
    ensures OnTheWayUp(Source(chain, s), home)
    decreases chain
  {
    if FromAbove(chain, s) {
      OuterIsOnTheWayUp(chain, home);
      SourceIsOnTheWayUp(chain.outer, home, s);
    }
  }

  lemma {:induction false} OuterIsOnTheWayUp(chain: Chain, home: Chain)
    requires OnTheWayUp(chain, home) && chain.Under?
    ensures OnTheWayUp(chain.outer, home)
    decreases home
  {
    if chain == home { assert OnTheWayUp(chain.outer, home.outer); } else { OuterIsOnTheWayUp(chain, home.outer); }
  }

  lemma {:induction false} HigherUp(chain: Chain, home: Chain)
    requires OnTheWayUp(chain, home)
    ensures Level(chain) <= Level(home) && (Level(chain) == Level(home) <==> chain == home)
    decreases home
  {
    if chain != home { HigherUp(chain, home.outer); }
  }

  /** In a bucket of a list's items a walk is seamless exactly when it reads no object but its own. */
  lemma SeamlessUnderAList(g: Graph, rank: Id -> nat, home: Chain, s: Id)
    requires Ranked(g, rank) && s in g && (home.Under? ==> home.isList)
    ensures Agree(g, rank, home, s, Unlifted(home), s) <==> ReadsOwnObject(g, rank, home, home, s)
  {
    AgreesUnderAList(g, rank, home, home, s);
  }

  lemma {:induction false} AgreesUnderAList(g: Graph, rank: Id -> nat, chain: Chain, home: Chain, s: Id)
    requires Ranked(g, rank) && s in g && (home.Under? ==> home.isList) && OnTheWayUp(chain, home)
    ensures Agree(g, rank, chain, s, Unlifted(home), s) <==> ReadsOwnObject(g, rank, chain, home, s)
    decreases rank(s)
  {
    var p, q := Source(chain, s), Unlifted(home);
    SourceIsOnTheWayUp(chain, home, s);
    HigherUp(p, home);
    assert Source(q, s) == q && Level(q) == Level(home);
    forall d | d in g[s].deps
      ensures Agree(g, rank, p, d, q, d) <==> ReadsOwnObject(g, rank, p, home, d)
    {
      AgreesUnderAList(g, rank, p, home, d);
    }
    forall i | 0 <= i < |g[s].deps| ensures g[s].deps[i] in g[s].deps && (AgreeAt(g, rank, p, s, q, s, i) <==> ReadsOwnObject(g, rank, p, home, g[s].deps[i])) {
      assert g[s].deps[i] in g[s].deps;
    }
    if forall i :: 0 <= i < |g[s].deps| ==> AgreeAt(g, rank, p, s, q, s, i) {
      forall d | d in g[s].deps ensures ReadsOwnObject(g, rank, p, home, d) {
        var i :| 0 <= i < |g[s].deps| && g[s].deps[i] == d;
        assert AgreeAt(g, rank, p, s, q, s, i);
      }
    }
  }

  // ----- and so does a run -----

  /** Completion with one entry to a bucket: a list has a single item, another object at each depth. */
  ghost predicate OneEach(ex: Explode<Term>)
  {
    ValidExplode(ex) && forall path, isList, col, done {:trigger ex(path, isList, col, done)} ::
      |col| == 1 ==> ex(path, isList, col, done) == OneNest(path, isList, col)
  }

  function OneNest(path: seq<nat>, isList: bool, col: seq<Term>): Nest<Term>
    requires |col| == 1
  {
    Nest([[0]], [if isList then Obj(|path|) else col[0]])
  }

  lemma OpensOne(ex: Explode<Term>, path: seq<nat>, isList: bool, col: seq<Term>, done: seq<Option<Result<Term>>>)
    requires OneEach(ex) && |col| == 1
    ensures ex(path, isList, col, done) == OneNest(path, isList, col)
  {
  }

  function OneItem(): Explode<Term>
  {
    (path: seq<nat>, isList: bool, col: seq<Term>, done: seq<Option<Result<Term>>>) =>
      if |col| == 1 then OneNest(path, isList, col) else Nest([[]], [])
  }

  lemma OneHop(n: nat)
    ensures ValidHops(n, [[]]) && Width(n, [[]]) == 0
    ensures ValidHops(1, [[0]]) && Width(1, [[0]]) == 1 && Owner(1, [[0]], 0) == 0
  {
    var none: seq<nat> := [];
    assert [none][1..] == [] && [none][0] == [] && [[0]][1..] == [] && [[0]][0] == [0];
    assert ValidHops(0, []) && ValidHops(1, []);
  }

  lemma OneItemIsOneEach()
    ensures OneEach(OneItem())
  {
    forall path: seq<nat>, isList: bool, col: seq<Term>, done: seq<Option<Result<Term>>>
      ensures ValidNest(isList, col, OneItem()(path, isList, col, done))
    {
      OneHop(|col|);
    }
  }

  lemma LastKidOfRun<V(!new)>(g: Graph, sem: (Op, seq<V>) -> V, ex: Explode<V>, path: seq<nat>, op: ObjectPlan, store: Store<V>, n: nat, k: nat)
    requires ValidExplode(ex) && Runnable(g, op) && 0 < k <= |op.fields|
    requires store.Keys == Cut(op) + Elements(op.ordered) && Columns(store, n)
    ensures var done := RunFields(g, sem, ex, path, op, store, n, k - 1);
            var kid := if HasChild(op, k - 1) then Some(RunChild(g, sem, ex, path, op, store, n, k - 1, done)) else None;
            RunFields(g, sem, ex, path, op, store, n, k) == done + [kid]
  {
  }

  lemma KidOfRun<V(!new)>(g: Graph, sem: (Op, seq<V>) -> V, ex: Explode<V>, path: seq<nat>, op: ObjectPlan,
                          store: Store<V>, n: nat, k: nat, i: nat)
    requires ValidExplode(ex) && Runnable(g, op) && i < k <= |op.fields| && HasChild(op, i)
    requires store.Keys == Cut(op) + Elements(op.ordered) && Columns(store, n)
    ensures RunFields(g, sem, ex, path, op, store, n, k)[i]
         == Some(RunChild(g, sem, ex, path, op, store, n, i, RunFields(g, sem, ex, path, op, store, n, i)))
  {
    LastKidOfRun(g, sem, ex, path, op, store, n, i + 1);
    for j := i + 1 to k
      invariant RunFields(g, sem, ex, path, op, store, n, j)[i] == RunFields(g, sem, ex, path, op, store, n, i + 1)[i]
    {
      LastKidOfRun(g, sem, ex, path, op, store, n, j + 1);
    }
  }

  lemma {:induction false} KidOfMeaning<V(!new)>(g: Graph, rank: Id -> nat, sem: (Op, seq<V>) -> V, ex: Explode<V>, path: seq<nat>,
                                                 op: ObjectPlan, objs: seq<V>, k: nat, i: nat)
    requires Ranked(g, rank) && StepsIn(g, op) && i < k <= |op.fields| && HasChild(op, i)
    ensures FieldsMeaning(g, rank, sem, ex, path, op, objs, k)[i]
         == Some(Meaning(g, rank, sem, ex, path + [i], Child(op, i),
                         ex(path + [i], op.fields[i].isList, FieldMeaning(g, rank, sem, op, objs, i), FieldsMeaning(g, rank, sem, ex, path, op, objs, i)).objs))
  {
    if i < k - 1 {
      KidOfMeaning(g, rank, sem, ex, path, op, objs, k - 1, i);
    }
  }

  /** A layer with a single position, at which every list's item has an object of its own. */
  ghost predicate StandsAlone(g: Graph, rank: Id -> nat, op: ObjectPlan, chain: Chain, path: seq<nat>, objs: seq<Term>, place: seq<Term>)
    requires Ranked(g, rank) && op.parent in g
  {
    Level(chain) == |path| && Apart(chain, place) && Stands(g, rank, Free(), op, chain, objs, [place])
  }

  lemma {:induction false} AgreeingRunIsSeamless(g: Graph, rank: Id -> nat, ex: Explode<Term>, path: seq<nat>, op: ObjectPlan, chain: Chain,
                                                 objs: seq<Term>, place: seq<Term>, seeds: Store<Term>)
    requires Ranked(g, rank) && StepsIn(g, op) && BoundedByFields(op) && Runnable(g, op) && OneEach(ex)
    requires StandsAlone(g, rank, op, chain, path, objs, place)
    requires seeds.Keys == op.hoistedOut && Shows(g, rank, Free(), chain, [place], seeds, {op.parent})
    requires RunPlan(g, Free(), ex, path, op, objs, seeds) == Meaning(g, rank, Free(), ex, path, op, objs)
    ensures SeamlessTree(g, rank, op, chain)
    decreases op
  {
    var store := LayerStore(g, Free(), op, objs, seeds);
    LayerShows(g, rank, Free(), op, chain, objs, [place], seeds);
    forall i | 0 <= i < |op.fields|
      ensures FieldIsSeamless(g, rank, op, chain, i)
    {
      AgreeingFieldIsSeamless(g, rank, ex, path, op, chain, objs, place, seeds, store, i);
    }
    forall i | HasChild(op, i)
      ensures SeamlessTree(g, rank, Child(op, i), ChildChain(op, chain, i))
    {
      AgreeingChildIsSeamless(g, rank, ex, path, op, chain, objs, place, seeds, store, i);
    }
  }

  lemma AgreeingFieldIsSeamless(g: Graph, rank: Id -> nat, ex: Explode<Term>, path: seq<nat>, op: ObjectPlan, chain: Chain, objs: seq<Term>,
                                place: seq<Term>, seeds: Store<Term>, store: Store<Term>, i: nat)
    requires Ranked(g, rank) && StepsIn(g, op) && Runnable(g, op) && ValidExplode(ex) && StandsAlone(g, rank, op, chain, path, objs, place) && i < |op.fields|
    requires seeds.Keys == op.hoistedOut && Columns(seeds, 1) && store == LayerStore(g, Free(), op, objs, seeds)
    requires Shows(g, rank, Free(), chain, [place], store, {})
    requires RunPlan(g, Free(), ex, path, op, objs, seeds).cols == Meaning(g, rank, Free(), ex, path, op, objs).cols
    ensures FieldIsSeamless(g, rank, op, chain, i)
  {
    var s := op.fields[i].step;
    assert Targets(op)[i] == s && s in Targets(op);
    assert RunPlan(g, Free(), ex, path, op, objs, seeds).cols[i] == store[s];
    assert Meaning(g, rank, Free(), ex, path, op, objs).cols[i] == FieldMeaning(g, rank, Free(), op, objs, i);
    assert store[s][0] == FieldMeaning(g, rank, Free(), op, objs, i)[0];
    assert [place][0] == place && store[s][0] == Seen(g, rank, Free(), chain, place, s);
    MeantIsSeamless(g, rank, chain, place, s);
  }

  lemma {:induction false} AgreeingChildIsSeamless(g: Graph, rank: Id -> nat, ex: Explode<Term>, path: seq<nat>, op: ObjectPlan, chain: Chain,
                                                   objs: seq<Term>, place: seq<Term>, seeds: Store<Term>, store: Store<Term>, i: nat)
    requires Ranked(g, rank) && StepsIn(g, op) && BoundedByFields(op) && Runnable(g, op) && OneEach(ex)
    requires StandsAlone(g, rank, op, chain, path, objs, place) && HasChild(op, i)
    requires seeds.Keys == op.hoistedOut && Columns(seeds, 1) && store == LayerStore(g, Free(), op, objs, seeds)
    requires Shows(g, rank, Free(), chain, [place], store, {})
    requires RunPlan(g, Free(), ex, path, op, objs, seeds) == Meaning(g, rank, Free(), ex, path, op, objs)
    ensures SeamlessTree(g, rank, Child(op, i), ChildChain(op, chain, i))
    decreases op, 0
  {
    var c, nest := Child(op, i), OneNest(path + [i], op.fields[i].isList, store[op.fields[i].step]);
    OneHop(0);
    assert store[op.fields[i].step] == FieldMeaning(g, rank, Free(), op, objs, i) by {
      assert RunPlan(g, Free(), ex, path, op, objs, seeds).cols[i] == Meaning(g, rank, Free(), ex, path, op, objs).cols[i];
    }
    var seeds' := Bridged(store, 1, c.hoistedOut, nest.hops);
    ChildAgrees(g, rank, ex, path, op, objs, seeds, store, i, nest, seeds');
    ChildStandsAlone(g, rank, path, op, chain, objs, place, store, i, nest, seeds');
    AgreeingRunIsSeamless(g, rank, ex, path + [i], c, ChildChain(op, chain, i), nest.objs, place + [nest.objs[0]], seeds');
  }

  /** Runs that agree agree in each child bucket. */
  lemma ChildAgrees(g: Graph, rank: Id -> nat, ex: Explode<Term>, path: seq<nat>, op: ObjectPlan, objs: seq<Term>, seeds: Store<Term>,
                    store: Store<Term>, i: nat, nest: Nest<Term>, seeds': Store<Term>)
    requires Ranked(g, rank) && StepsIn(g, op) && Runnable(g, op) && OneEach(ex) && |objs| == 1 && HasChild(op, i)
    requires seeds.Keys == op.hoistedOut && Columns(seeds, 1) && store == LayerStore(g, Free(), op, objs, seeds)
    requires store[op.fields[i].step] == FieldMeaning(g, rank, Free(), op, objs, i)
    requires nest == OneNest(path + [i], op.fields[i].isList, store[op.fields[i].step]) && ValidHops(1, nest.hops) && Width(1, nest.hops) == 1
    requires Child(op, i).hoistedOut <= store.Keys && seeds' == Bridged(store, 1, Child(op, i).hoistedOut, nest.hops)
    requires RunPlan(g, Free(), ex, path, op, objs, seeds).kids == Meaning(g, rank, Free(), ex, path, op, objs).kids
    ensures RunPlan(g, Free(), ex, path + [i], Child(op, i), nest.objs, seeds') == Meaning(g, rank, Free(), ex, path + [i], Child(op, i), nest.objs)
  {
    var n := |op.fields|;
    var ran, meant := RunFields(g, Free(), ex, path, op, store, 1, n), FieldsMeaning(g, rank, Free(), ex, path, op, objs, n);
    assert RunPlan(g, Free(), ex, path, op, objs, seeds).kids == ran;
    assert Meaning(g, rank, Free(), ex, path, op, objs).kids == meant;
    ChildRan(g, ex, path, op, store, i, nest, seeds');
    OpensOne(ex, path + [i], op.fields[i].isList, FieldMeaning(g, rank, Free(), op, objs, i), FieldsMeaning(g, rank, Free(), ex, path, op, objs, i));
    ChildMeant(g, rank, ex, path, op, objs, i, nest);
    assert ran[i] == meant[i];
  }

  lemma ChildRan(g: Graph, ex: Explode<Term>, path: seq<nat>, op: ObjectPlan, store: Store<Term>, i: nat, nest: Nest<Term>, seeds': Store<Term>)
    requires OneEach(ex) && Runnable(g, op) && HasChild(op, i) && store.Keys == Cut(op) + Elements(op.ordered) && Columns(store, 1)
    requires nest == OneNest(path + [i], op.fields[i].isList, store[op.fields[i].step]) && ValidHops(1, nest.hops) && Width(1, nest.hops) == 1
    requires Child(op, i).hoistedOut <= store.Keys && seeds' == Bridged(store, 1, Child(op, i).hoistedOut, nest.hops)
    ensures RunFields(g, Free(), ex, path, op, store, 1, |op.fields|)[i]
         == Some(RunPlan(g, Free(), ex, path + [i], Child(op, i), nest.objs, seeds'))
  {
    OpensOne(ex, path + [i], op.fields[i].isList, store[op.fields[i].step], RunFields(g, Free(), ex, path, op, store, 1, i));
    KidOfRun(g, Free(), ex, path, op, store, 1, |op.fields|, i);
  }

  lemma ChildMeant(g: Graph, rank: Id -> nat, ex: Explode<Term>, path: seq<nat>, op: ObjectPlan, objs: seq<Term>, i: nat, nest: Nest<Term>)
    requires Ranked(g, rank) && StepsIn(g, op) && HasChild(op, i)
    requires ex(path + [i], op.fields[i].isList, FieldMeaning(g, rank, Free(), op, objs, i), FieldsMeaning(g, rank, Free(), ex, path, op, objs, i)) == nest
    ensures FieldsMeaning(g, rank, Free(), ex, path, op, objs, |op.fields|)[i]
         == Some(Meaning(g, rank, Free(), ex, path + [i], Child(op, i), nest.objs))
  {
    KidOfMeaning(g, rank, Free(), ex, path, op, objs, |op.fields|, i);
  }

  lemma ChildStandsAlone(g: Graph, rank: Id -> nat, path: seq<nat>, op: ObjectPlan, chain: Chain, objs: seq<Term>, place: seq<Term>,
                         store: Store<Term>, i: nat, nest: Nest<Term>, seeds': Store<Term>)
    requires Ranked(g, rank) && StepsIn(g, op) && BoundedByFields(op) && StandsAlone(g, rank, op, chain, path, objs, place) && HasChild(op, i)
    requires Shows(g, rank, Free(), chain, [place], store, {}) && op.fields[i].step in store
    requires nest == OneNest(path + [i], op.fields[i].isList, store[op.fields[i].step]) && ValidHops(1, nest.hops) && Width(1, nest.hops) == 1
    requires Child(op, i).hoistedOut <= store.Keys && seeds' == Bridged(store, 1, Child(op, i).hoistedOut, nest.hops)
    ensures StandsAlone(g, rank, Child(op, i), ChildChain(op, chain, i), path + [i], nest.objs, place + [nest.objs[0]])
    ensures Shows(g, rank, Free(), ChildChain(op, chain, i), [place + [nest.objs[0]]], seeds', {Child(op, i).parent})
  {
    OneHop(0);
    assert ChildPlaces([place], nest) == [place + [nest.objs[0]]];
    BridgedShows(g, rank, Free(), op, chain, objs, [place], store, i, nest);
    assert |place| == Level(chain) + 1 by { assert [place][0] == place; }
    ObjectsStayApart(chain, place, nest.objs[0]);
  }

  lemma {:induction false} ObjectsStayApart(chain: Chain, place: seq<Term>, o: Term)
    requires Apart(chain, place)
    ensures Apart(chain, place + [o])
    decreases chain
  {
    if chain.Under? { ObjectsStayApart(chain.outer, place, o); }
  }

  /** Hoisting leaves every run unchanged -- for all nests of buckets and all objects -- exactly when the plan is
      seamless, which is decided before anything is hoisted. */
  lemma HoistingIsExact(g: Graph, rank: Id -> nat, plain: ObjectPlan, hoisted: ObjectPlan)
    requires Ranked(g, rank) && OffAndOn(g, rank, plain, hoisted) && BoundedByFields(plain)
    ensures Runnable(g, plain) && Runnable(g, hoisted)
    ensures (forall ex: Explode<Term>, objs: seq<Term> :: ValidExplode(ex) ==> SameRun(g, Free(), ex, plain, hoisted, objs))
       <==> SeamlessPlan(g, rank, plain, {}, Top(plain.parent))
  {
    PlainIsRunnable(g, rank, plain);
    HoistedIsRunnable(g, rank, hoisted, {}, true);
    if SeamlessPlan(g, rank, plain, {}, Top(plain.parent)) {
      forall ex: Explode<Term>, objs: seq<Term> | ValidExplode(ex)
        ensures SameRun(g, Free(), ex, plain, hoisted, objs)
      {
        HoistingKeepsMeaning(g, rank, Free(), ex, plain, hoisted, objs);
      }
    } else {
      OneItemIsOneEach();
      SeamsShow(g, rank, plain, hoisted, OneItem());
      assert !SameRun(g, Free(), OneItem(), plain, hoisted, [Obj(0)]);
    }
  }

  /** A seam shows: over lists of one item, one object to each depth, the two runs differ. */
  lemma SeamsShow(g: Graph, rank: Id -> nat, plain: ObjectPlan, hoisted: ObjectPlan, ex: Explode<Term>)
    requires Ranked(g, rank) && OffAndOn(g, rank, plain, hoisted) && BoundedByFields(plain)
    requires !SeamlessPlan(g, rank, plain, {}, Top(plain.parent)) && OneEach(ex)
    ensures Runnable(g, plain) && Runnable(g, hoisted) && !SameRun(g, Free(), ex, plain, hoisted, [Obj(0)])
  {
    HoistedIsRunnable(g, rank, hoisted, {}, true);
    PlainRunIsMeaning(g, rank, Free(), ex, plain, [Obj(0)]);
    MeaningOfShape(g, rank, Free(), ex, [], plain, hoisted, [Obj(0)]);
    ShapeIsBoundedByFields(plain, hoisted);
    if SameRun(g, Free(), ex, plain, hoisted, [Obj(0)]) {
      AgreeingTopIsSeamless(g, rank, hoisted, ex);
      SeamlessWhenHoisted(g, rank, plain, hoisted, {}, true, Top(plain.parent));
    }
  }

  lemma AgreeingTopIsSeamless(g: Graph, rank: Id -> nat, op: ObjectPlan, ex: Explode<Term>)
    requires Ranked(g, rank) && StepsIn(g, op) && BoundedByFields(op) && Runnable(g, op) && op.hoistedOut == {} && OneEach(ex)
    requires RunPlan(g, Free(), ex, [], op, [Obj(0)], map[]) == Meaning(g, rank, Free(), ex, [], op, [Obj(0)])
    ensures SeamlessTree(g, rank, op, Top(op.parent))
  {
    var chain := Top(op.parent);
    assert StandsAlone(g, rank, op, chain, [], [Obj(0)], [Obj(0)]);
    AgreeingRunIsSeamless(g, rank, ex, [], op, chain, [Obj(0)], [Obj(0)], map[]);
  }

  // ----- plans that are always seamless -----

  /** What a layer's own steps take from the layers above is constant: it computes from no bucket's object. */
  ghost predicate SharesOnlyConstants(g: Graph, rank: Id -> nat, op: ObjectPlan, above: set<Id>, bounds: set<Id>)
    requires Ranked(g, rank) && StepsIn(g, op)
    decreases op
  {
    && (forall s, d, b :: s in OwnSteps(g, rank, op, above) && d in g[s].deps && d in above && b in bounds ==> !Reaches(g, rank, d, b))
    && forall i :: HasChild(op, i) ==>
         SharesOnlyConstants(g, rank, Child(op, i), AboveChild(g, rank, op, above, Child(op, i).parent), bounds + {Child(op, i).parent})
  }

  lemma LiftedNeedsLifted(g: Graph, rank: Id -> nat, op: ObjectPlan, above: set<Id>, y: Id, d: Id)
    requires Ranked(g, rank) && StepsIn(g, op) && Hoisted(g, rank, op, above, false) && y in op.hoistedOut && d in g[y].deps && d !in above
    ensures d in op.hoistedOut
  {
    var i :| 0 <= i < |g[y].deps| && g[y].deps[i] == d;
    assert IsHoistable(g, y, above + op.hoistedOut);
  }

  lemma {:induction false} LiftedReachesNoBoundary(g: Graph, rank: Id -> nat, op: ObjectPlan, above: set<Id>, bounds: set<Id>, y: Id, b: Id)
    requires Ranked(g, rank) && StepsIn(g, op) && Hoisted(g, rank, op, above, false)
    requires SharesOnlyConstants(g, rank, op, above, bounds) && bounds <= above + {op.parent}
    requires y in op.hoistedOut && b in bounds
    ensures !Reaches(g, rank, y, b)
    decreases op, rank(y)
  {
    if y in OwnSteps(g, rank, op, above) {
      forall d | d in g[y].deps
        ensures !Reaches(g, rank, d, b)
      {
        if d !in above {
          LiftedNeedsLifted(g, rank, op, above, y, d);
          LiftedReachesNoBoundary(g, rank, op, above, bounds, d, b);
        }
      }
    } else {
      var i := LiftedFrom(op, y);
      var c := Child(op, i);
      LiftedReachesNoBoundary(g, rank, c, AboveChild(g, rank, op, above, c.parent), bounds + {c.parent}, y, b);
    }
  }

  /** What reaches no boundary is the same wherever it is lifted to. */
  lemma {:induction false} ConstantsAgree(g: Graph, rank: Id -> nat, a: Chain, b: Chain, s: Id)
    requires Ranked(g, rank) && s in g && forall p :: p in Boundaries(a) + Boundaries(b) ==> !Reaches(g, rank, s, p)
    ensures Agree(g, rank, a, s, b, s)
    decreases rank(s)
  {
    var p, q := Source(a, s), Source(b, s);
    SourceIsBounded(a, s);
    SourceIsBounded(b, s);
    assert s in Scope(g, rank, {}, s);
    assert Reaches(g, rank, s, s) && s !in Boundaries(a) + Boundaries(b);
    forall i | 0 <= i < |g[s].deps|
      ensures AgreeAt(g, rank, p, s, q, s, i)
    {
      var d := g[s].deps[i];
      assert d in g[s].deps;
      forall b | b in Boundaries(p) + Boundaries(q) ensures !Reaches(g, rank, d, b) { assert !Reaches(g, rank, s, b); }
      ConstantsAgree(g, rank, p, q, d);
    }
  }

  ghost function Boundaries(chain: Chain): set<Id>
    decreases chain
  {
    {chain.boundary} + if chain.Under? then Boundaries(chain.outer) else {}
  }

  lemma {:induction false} SourceIsBounded(chain: Chain, s: Id)
    ensures Boundaries(Source(chain, s)) <= Boundaries(chain) && Source(chain, s).boundary in Boundaries(chain)
    decreases chain
  {
    if FromAbove(chain, s) { SourceIsBounded(chain.outer, s); }
  }

  lemma {:induction false} LiftedConstantsAreSeamless(g: Graph, rank: Id -> nat, chain: Chain, s: Id)
    requires Ranked(g, rank) && s in g
    requires chain.Under? ==> forall y, b :: y in chain.lifted && y in g && b in Boundaries(chain) ==> !Reaches(g, rank, y, b)
    ensures Agree(g, rank, chain, s, Unlifted(chain), s)
    decreases rank(s)
  {
    var u := Unlifted(chain);
    if s == chain.boundary {
      AgreesWithItself(g, rank, chain, s);
      assert s == chain.boundary && FromAbove(chain, s) ==> Source(u, s) == Source(chain, s);
    } else if FromAbove(chain, s) {
      assert Boundaries(u) == Boundaries(chain);
      ConstantsAgree(g, rank, chain, u, s);
    } else {
      forall i | 0 <= i < |g[s].deps|
        ensures AgreeAt(g, rank, chain, s, u, s, i)
      {
        LiftedConstantsAreSeamless(g, rank, chain, g[s].deps[i]);
      }
    }
  }

  /** A plan whose layers share only constants with the layers above is seamless. */
  lemma {:induction false} SharingConstantsIsSeamless(g: Graph, rank: Id -> nat, op: ObjectPlan, above: set<Id>, isTop: bool, chain: Chain)
    requires Ranked(g, rank) && StepsIn(g, op) && Hoisted(g, rank, op, above, isTop)
    requires chain.boundary == op.parent && Boundaries(chain) <= above + {op.parent} && SharesOnlyConstants(g, rank, op, above, Boundaries(chain))
    requires isTop == chain.Top? && (chain.Under? ==> chain.lifted == op.hoistedOut)
    ensures SeamlessTree(g, rank, op, chain)
    decreases op
  {
    if chain.Under? {
      forall y, b | y in chain.lifted && y in g && b in Boundaries(chain) ensures !Reaches(g, rank, y, b) {
        LiftedReachesNoBoundary(g, rank, op, above, Boundaries(chain), y, b);
      }
    }
    forall i | 0 <= i < |op.fields|
      ensures FieldIsSeamless(g, rank, op, chain, i)
    {
      assert Targets(op)[i] == op.fields[i].step && op.fields[i].step in Targets(op);
      LiftedConstantsAreSeamless(g, rank, chain, op.fields[i].step);
    }
    forall i | HasChild(op, i)
      ensures SeamlessTree(g, rank, Child(op, i), ChildChain(op, chain, i))
    {
      var c, inner := Child(op, i), ChildChain(op, chain, i);
      assert Boundaries(inner) == Boundaries(chain) + {c.parent};
      SharingConstantsIsSeamless(g, rank, c, AboveChild(g, rank, op, above, c.parent), false, inner);
    }
  }

  // ----- no bucket source is ever executed -----

  /** From the layer's own steps every path ends at its boundary or at an ordinary step. */
  ghost predicate WellScoped(g: Graph, rank: Id -> nat, op: ObjectPlan)
    requires Ranked(g, rank) && StepsIn(g, op)
    decreases op
  {
    && (forall s :: s in Scopes(g, rank, {op.parent}, Elements(Targets(op))) ==> g[s].op.kind == Plain)
    && forall i :: HasChild(op, i) ==> WellScoped(g, rank, Child(op, i))
  }

  /** Down to `p` the layer's own steps are ordinary ones. */
  ghost predicate PlainDownTo(g: Graph, rank: Id -> nat, p: Id, op: ObjectPlan)
    requires Ranked(g, rank) && StepsIn(g, op)
  {
    forall t, x :: t in Targets(op) && x in Scope(g, rank, {p}, t) ==> g[x].op.kind == Plain
  }

  /** A path to `p` either avoids `q` or runs on from it. */
  lemma {:induction false} ScopeSplits(g: Graph, rank: Id -> nat, p: Id, q: Id, t: Id, x: Id)
    requires Ranked(g, rank) && t in g && q in g && x in Scope(g, rank, {p}, t)
    ensures x in Scope(g, rank, {q}, t) || x in Scope(g, rank, {p}, q)
    decreases rank(t)
  {
    if t != q && x != t {
      var d :| d in g[t].deps && x in Scope(g, rank, {p}, d);
      ScopeSplits(g, rank, p, q, d, x);
    }
  }

  lemma ChildIsPlainDownTo(g: Graph, rank: Id -> nat, p: Id, op: ObjectPlan, i: nat)
    requires Ranked(g, rank) && StepsIn(g, op) && WellScoped(g, rank, op) && BoundedByFields(op) && PlainDownTo(g, rank, p, op) && HasChild(op, i)
    ensures PlainDownTo(g, rank, p, Child(op, i))
  {
    var c := Child(op, i);
    assert Targets(op)[i] == op.fields[i].step && c.parent in Targets(op);
    forall t, x | t in Targets(c) && x in Scope(g, rank, {p}, t)
      ensures g[x].op.kind == Plain
    {
      ScopeSplits(g, rank, p, c.parent, t, x);
      assert x in Scope(g, rank, {c.parent}, t) ==> x in Scopes(g, rank, {c.parent}, Elements(Targets(c)));
    }
  }

  lemma OwnIsPlain(g: Graph, rank: Id -> nat, p: Id, op: ObjectPlan, above: set<Id>, y: Id)
    requires Ranked(g, rank) && StepsIn(g, op) && PlainDownTo(g, rank, p, op) && p in above + {op.parent} && y in OwnSteps(g, rank, op, above)
    ensures forall x :: x in Scope(g, rank, {p}, y) ==> g[x].op.kind == Plain
  {
    var t :| t in Elements(Targets(op)) && y in Scope(g, rank, above + {op.parent}, t);
    ScopeShrinks(g, rank, {p}, above + {op.parent}, t);
    ScopeIsTransitive(g, rank, {p}, t, y);
  }

  /** The field whose child lifted `y`. */
  lemma LiftedFrom(op: ObjectPlan, y: Id) returns (i: nat)
    requires y in LiftedBy(op.fields)
    ensures HasChild(op, i) && y in Child(op, i).hoistedOut
  {
    var f :| f in op.fields && f.child.Some? && y in f.child.value.hoistedOut;
    i :| 0 <= i < |op.fields| && op.fields[i] == f;
  }

  lemma {:induction false} LiftedIsPlain(g: Graph, rank: Id -> nat, p: Id, op: ObjectPlan, above: set<Id>, y: Id)
    requires Ranked(g, rank) && StepsIn(g, op) && Hoisted(g, rank, op, above, false) && WellScoped(g, rank, op) && BoundedByFields(op)
    requires PlainDownTo(g, rank, p, op) && p in above + {op.parent} && y in op.hoistedOut
    ensures forall x :: x in Scope(g, rank, {p}, y) ==> g[x].op.kind == Plain
    decreases op
  {
    if y in OwnSteps(g, rank, op, above) {
      OwnIsPlain(g, rank, p, op, above, y);
    } else {
      var i := LiftedFrom(op, y);
      var c := Child(op, i);
      ChildIsPlainDownTo(g, rank, p, op, i);
      LiftedIsPlain(g, rank, p, c, AboveChild(g, rank, op, above, c.parent), y);
    }
  }

  ghost predicate RunsPlainSteps(g: Graph, op: ObjectPlan)
    decreases op
  {
    && (forall s :: s in op.ordered ==> s in g && g[s].op.kind == Plain)
    && forall i :: HasChild(op, i) ==> RunsPlainSteps(g, Child(op, i))
  }

  /** However far steps are lifted, no layer ever executes a bucket source, which would raise. */
  lemma {:induction false} HoistedRunsPlainSteps(g: Graph, rank: Id -> nat, op: ObjectPlan, above: set<Id>, isTop: bool)
    requires Ranked(g, rank) && StepsIn(g, op) && HoistedInIn(g, op) && Hoisted(g, rank, op, above, isTop) && Populated(g, rank, op)
    requires WellScoped(g, rank, op) && BoundedByFields(op)
    ensures RunsPlainSteps(g, op)
    decreases op
  {
    forall s | s in op.ordered
      ensures s in g && g[s].op.kind == Plain
    {
      LayerRunsPlain(g, rank, op, above, isTop, s);
    }
    forall i | HasChild(op, i)
      ensures RunsPlainSteps(g, Child(op, i))
    {
      var c := Child(op, i);
      HoistedRunsPlainSteps(g, rank, c, AboveChild(g, rank, op, above, c.parent), false);
    }
  }

  lemma WellScopedIsPlain(g: Graph, rank: Id -> nat, op: ObjectPlan)
    requires Ranked(g, rank) && StepsIn(g, op) && WellScoped(g, rank, op)
    ensures PlainDownTo(g, rank, op.parent, op)
  {
    forall t, x | t in Targets(op) && x in Scope(g, rank, {op.parent}, t) ensures g[x].op.kind == Plain {
      assert x in Scopes(g, rank, {op.parent}, Elements(Targets(op)));
    }
  }

  lemma LayerRunsPlain(g: Graph, rank: Id -> nat, op: ObjectPlan, above: set<Id>, isTop: bool, s: Id)
    requires Ranked(g, rank) && StepsIn(g, op) && HoistedInIn(g, op) && Hoisted(g, rank, op, above, isTop) && Populated(g, rank, op)
    requires WellScoped(g, rank, op) && BoundedByFields(op) && s in op.ordered
    ensures s in g && g[s].op.kind == Plain
  {
    assert s in Elements(op.ordered);
    var t :| t in Elements(Targets(op)) + Elements(op.hoistedIn) && s in Scope(g, rank, Cut(op), t);
    ScopeShrinks(g, rank, {op.parent}, Cut(op), t);
    WellScopedIsPlain(g, rank, op);
    if t !in Targets(op) {
      assert t in Elements(op.hoistedIn);
      var i := LiftedFrom(op, t);
      var c := Child(op, i);
      ChildIsPlainDownTo(g, rank, op.parent, op, i);
      LiftedIsPlain(g, rank, op.parent, c, AboveChild(g, rank, op, above, c.parent), t);
    }
  }

  // ----- without lists there are no seams -----

  ghost predicate NoLists(op: ObjectPlan)
    decreases op
  {
    forall i :: HasChild(op, i) ==> !op.fields[i].isList && NoLists(Child(op, i))
  }

  lemma {:induction false} AgreeVia(g: Graph, rank: Id -> nat, a: Chain, b: Chain, c: Chain, s: Id)
    requires Ranked(g, rank) && s in g && Agree(g, rank, a, s, c, s) && Agree(g, rank, b, s, c, s)
    ensures Agree(g, rank, a, s, b, s)
    decreases rank(s)
  {
    var p, q, m := Source(a, s), Source(b, s), Source(c, s);
    if s != m.boundary {
      forall i | 0 <= i < |g[s].deps|
        ensures AgreeAt(g, rank, p, s, q, s, i)
      {
        assert AgreeAt(g, rank, p, s, m, s, i) && AgreeAt(g, rank, q, s, m, s, i);
        AgreeVia(g, rank, p, q, m, g[s].deps[i]);
      }
    }
  }

  /** Everything the layer holds comes down to the operation's own object, as if the operation's bucket had run it. */
  ghost predicate FromTheTop(g: Graph, rank: Id -> nat, chain: Chain, root: Id, steps: set<Id>)
    requires Ranked(g, rank)
  {
    forall s :: s in steps && s in g ==> Agree(g, rank, chain, s, Top(root), s)
  }

  lemma {:induction false} OrderedFromTheTop(g: Graph, rank: Id -> nat, op: ObjectPlan, chain: Chain, root: Id, s: Id)
    requires Ranked(g, rank) && Runnable(g, op) && RunsPlainSteps(g, op) && s in op.ordered && root in g && g[root].op.kind != Plain
    requires chain.boundary == op.parent && op.hoistedOut == (if chain.Under? then chain.lifted else {}) && FromTheTop(g, rank, chain, root, Cut(op))
    ensures Agree(g, rank, chain, s, Top(root), s)
    decreases rank(s)
  {
    assert Source(chain, s) == chain && s != chain.boundary && s != root;
    forall i | 0 <= i < |g[s].deps|
      ensures AgreeAt(g, rank, chain, s, Top(root), s, i)
    {
      var d := g[s].deps[i];
      assert d in g[s].deps && (d in op.ordered || d in Cut(op));
      if d in op.ordered { OrderedFromTheTop(g, rank, op, chain, root, d); }
    }
  }

  lemma {:induction false} PlannedFromTheTop(g: Graph, rank: Id -> nat, op: ObjectPlan, chain: Chain, root: Id, s: Id)
    requires Ranked(g, rank) && s in g && root in g && g[root].op.kind != Plain && op.parent in g && chain.boundary == op.parent
    requires Agree(g, rank, chain, op.parent, Top(root), op.parent)
    requires forall x :: x in Scope(g, rank, {op.parent}, s) ==> g[x].op.kind == Plain
    ensures Agree(g, rank, Unlifted(chain), s, Top(root), s)
    decreases rank(s)
  {
    var u := Unlifted(chain);
    if s == op.parent {
      assert FromAbove(u, s) == FromAbove(chain, s);
      SameSourceAgrees(g, rank, chain, u, Top(root), s);
    } else {
      assert s in Scope(g, rank, {op.parent}, s) && Source(u, s) == u && s != root;
      forall i | 0 <= i < |g[s].deps|
        ensures AgreeAt(g, rank, u, s, Top(root), s, i)
      {
        assert g[s].deps[i] in g[s].deps;
        PlannedFromTheTop(g, rank, op, chain, root, g[s].deps[i]);
      }
    }
  }

  /** The boundary a layer takes from above, or has as its own object, is the same with nothing lifted. */
  lemma SameSourceAgrees(g: Graph, rank: Id -> nat, a: Chain, u: Chain, c: Chain, s: Id)
    requires Ranked(g, rank) && s in g && u == Unlifted(a) && s == a.boundary && Agree(g, rank, a, s, c, s)
    ensures Agree(g, rank, u, s, c, s)
  {
    if FromAbove(a, s) {
      assert Source(u, s) == Source(a, s);
    } else {
      assert Source(u, s) == u && Source(a, s) == a;
    }
  }

  /** A plan in which no list leads to an object is seamless, however far its steps are lifted. */
  lemma {:induction false} NoListsIsSeamless(g: Graph, rank: Id -> nat, op: ObjectPlan, chain: Chain, root: Id)
    requires Ranked(g, rank) && StepsIn(g, op) && Runnable(g, op) && RunsPlainSteps(g, op) && WellScoped(g, rank, op) && BoundedByFields(op)
    requires NoLists(op) && root in g && g[root].op.kind != Plain && (chain.Under? ==> !chain.isList)
    requires chain.boundary == op.parent && op.hoistedOut == (if chain.Under? then chain.lifted else {}) && FromTheTop(g, rank, chain, root, Cut(op))
    ensures SeamlessTree(g, rank, op, chain)
    decreases op
  {
    forall s | s in op.ordered ensures Agree(g, rank, chain, s, Top(root), s) { OrderedFromTheTop(g, rank, op, chain, root, s); }
    forall i | 0 <= i < |op.fields|
      ensures FieldIsSeamless(g, rank, op, chain, i)
    {
      var s := op.fields[i].step;
      assert Targets(op)[i] == s && s in Targets(op);
      WellScopedIsPlain(g, rank, op);
      PlannedFromTheTop(g, rank, op, chain, root, s);
      AgreeVia(g, rank, chain, Unlifted(chain), Top(root), s);
    }
    forall i | HasChild(op, i)
      ensures SeamlessTree(g, rank, Child(op, i), ChildChain(op, chain, i))
    {
      var c, inner := Child(op, i), ChildChain(op, chain, i);
      forall s | s in Cut(c) && s in g ensures Agree(g, rank, inner, s, Top(root), s) {
        assert s in op.ordered || s in Cut(op);
        assert Source(inner, s) == Source(chain, s);
      }
      NoListsIsSeamless(g, rank, c, inner, root);
    }
  }

  lemma NoListsNoSeams(g: Graph, rank: Id -> nat, op: ObjectPlan)
    requires Ranked(g, rank) && StepsIn(g, op) && HoistedInIn(g, op) && Hoisted(g, rank, op, {}, true) && Populated(g, rank, op)
    requires WellScoped(g, rank, op) && BoundedByFields(op) && NoLists(op) && g[op.parent].op.kind != Plain
    ensures SeamlessTree(g, rank, op, Top(op.parent))
  {
    HoistedIsRunnable(g, rank, op, {}, true);
    HoistedRunsPlainSteps(g, rank, op, {}, true);
    AgreesWithItself(g, rank, Top(op.parent), op.parent);
    NoListsIsSeamless(g, rank, op, Top(op.parent), op.parent);
  }

  // ----- hoisting over a list, on a real plan -----

  /** `{ me { friends { initial } firstName } }` after deduplication: `friends` (1) is a list whose items are the
      child's objects, `firstName` (2) is read off it in the layer above, and `initial` (3) off that very step. */
  function FriendsGraph(): Graph
  {
    map[Id(0) := Node(Op("Root", "", RootSource, false, false), []),
        Id(1) := Node(Op("Load", "friends", Plain, true, true), [Id(0)]),
        Id(2) := Node(Op("Access", "name", Plain, true, true), [Id(1)]),
        Id(3) := Node(Op("Lambda", "initial", Plain, true, true), [Id(2)])]
  }

  ghost predicate FriendsTree(op: ObjectPlan)
  {
    && op.parent == Id(0) && op.effects == [] && |op.fields| == 2
    && op.fields[0].step == Id(1) && op.fields[1].step == Id(2)
    && op.fields[0].child.Some? && op.fields[1].child.None?
    && var c := op.fields[0].child.value;
       c.parent == Id(1) && c.effects == [] && |c.fields| == 1 && c.fields[0].step == Id(3) && c.fields[0].child.None?
  }

  function FriendsRank(): Id -> nat
  {
    (s: Id) => if 0 <= s.n then s.n else 0
  }

  /** What hoisting looks at in that plan. */
  ghost predicate FriendsChain(g: Graph, rank: Id -> nat)
  {
    && Ranked(g, rank) && Id(0) in g && Id(1) in g && Id(2) in g && Id(3) in g
    && g[Id(1)].deps == [Id(0)] && g[Id(2)].deps == [Id(1)] && g[Id(3)].deps == [Id(2)]
    && g[Id(3)].op == Op("Lambda", "initial", Plain, true, true)
  }

  lemma FriendsIsChain()
    ensures FriendsChain(FriendsGraph(), FriendsRank())
  {
    var g, rank := FriendsGraph(), FriendsRank();
    forall s, d | s in g && d in g[s].deps
      ensures d in g && rank(d) < rank(s)
    {
      assert g[s].deps == [d];
    }
  }

  lemma ScopeOfOne(g: Graph, rank: Id -> nat, cut: set<Id>, s: Id, d: Id)
    requires Ranked(g, rank) && s in g && g[s].deps == [d] && s !in cut
    ensures d in g && Scope(g, rank, cut, s) == {s} + Scope(g, rank, cut, d)
  {
    assert d in g[s].deps;
  }

  /** Hoisting lifts `initial` over the step its object comes from.  That leaves a seam exactly when that step is a list:
      with a single best friend in its place the object is at hand above. */
  lemma FriendsSeamIff(g: Graph, rank: Id -> nat, plain: ObjectPlan, hoisted: ObjectPlan)
    requires FriendsChain(g, rank) && FriendsTree(plain) && OffAndOn(g, rank, plain, hoisted)
    ensures SeamlessPlan(g, rank, plain, {}, Top(plain.parent)) <==> !plain.fields[0].isList
  {
    FriendsShape(plain, hoisted);
    FriendsLiftInitial(g, rank, hoisted);
    FriendsTreeSeamIff(g, rank, hoisted);
    SeamlessWhenHoisted(g, rank, plain, hoisted, {}, true, Top(plain.parent));
  }

  lemma FriendsShape(me: ObjectPlan, laid: ObjectPlan)
    requires FriendsTree(me) && SameShape(me, laid)
    ensures FriendsTree(laid) && laid.fields[0].isList == me.fields[0].isList
  {
    assert HasChild(me, 0) && HasChild(laid, 0) && !HasChild(me, 1) && !HasChild(laid, 1);
    assert SameShape(Child(me, 0), Child(laid, 0));
    assert !HasChild(Child(me, 0), 0) && !HasChild(Child(laid, 0), 0);
  }

  lemma FriendsLiftInitial(g: Graph, rank: Id -> nat, hoisted: ObjectPlan)
    requires FriendsChain(g, rank) && FriendsTree(hoisted) && StepsIn(g, hoisted) && Hoisted(g, rank, hoisted, {}, true)
    ensures HasChild(hoisted, 0) && Id(3) in Child(hoisted, 0).hoistedOut
  {
    assert HasChild(hoisted, 0);
    var c := Child(hoisted, 0);
    assert Hoisted(g, rank, c, AboveChild(g, rank, hoisted, {}, c.parent), false);
    ListAndNameAreAbove(g, rank, hoisted);
    InitialIsLifted(g, rank, c, AboveChild(g, rank, hoisted, {}, c.parent));
  }

  lemma FriendsTreeSeamIff(g: Graph, rank: Id -> nat, op: ObjectPlan)
    requires FriendsChain(g, rank) && FriendsTree(op) && StepsIn(g, op) && HasChild(op, 0) && Id(3) in Child(op, 0).hoistedOut
    ensures SeamlessTree(g, rank, op, Top(op.parent)) <==> !op.fields[0].isList
  {
    var c, top := Child(op, 0), Top(op.parent);
    FriendsChildSeamIff(g, rank, op, c, ChildChain(op, top, 0));
    AgreesWithItself(g, rank, top, Id(1));
    AgreesWithItself(g, rank, top, Id(2));
    assert FieldIsSeamless(g, rank, op, top, 0) && FieldIsSeamless(g, rank, op, top, 1);
    assert !HasChild(op, 1);
  }

  lemma FriendsChildSeamIff(g: Graph, rank: Id -> nat, op: ObjectPlan, c: ObjectPlan, inner: Chain)
    requires FriendsChain(g, rank) && FriendsTree(op) && HasChild(op, 0) && c == Child(op, 0) && StepsIn(g, c) && Id(3) in c.hoistedOut
    requires inner == ChildChain(op, Top(op.parent), 0)
    ensures SeamlessTree(g, rank, c, inner) <==> !op.fields[0].isList
  {
    InitialSeamIff(g, rank, c.hoistedOut, op.fields[0].isList);
    assert !HasChild(c, 0);
    assert SeamlessTree(g, rank, c, inner) <==> FieldIsSeamless(g, rank, c, inner, 0);
  }

  /** Followed from the child's bucket, `initial` is run above, and so is what that bucket's objects come from. */
  lemma InitialSeamIff(g: Graph, rank: Id -> nat, lifted: set<Id>, isList: bool)
    requires FriendsChain(g, rank) && Id(3) in lifted
    ensures var chain := Under(Top(Id(0)), Id(1), lifted, isList); Agree(g, rank, chain, Id(3), Unlifted(chain), Id(3)) <==> !isList
  {
    var top, chain := Top(Id(0)), Under(Top(Id(0)), Id(1), lifted, isList);
    var u := Unlifted(chain);
    AgreesWithItself(g, rank, top, Id(1));
    assert Source(u, Id(2)) == Source(u, Id(3)) == u && Source(chain, Id(3)) == top;
    assert Source(u, Id(1)) == if isList then u else top;
    assert Agree(g, rank, top, Id(1), u, Id(1)) <==> !isList;
    assert AgreeAt(g, rank, top, Id(2), u, Id(2), 0) <==> !isList;
    assert Agree(g, rank, top, Id(2), u, Id(2)) <==> !isList;
    assert AgreeAt(g, rank, top, Id(3), u, Id(3), 0) <==> !isList;
  }

  lemma ListAndNameAreAbove(g: Graph, rank: Id -> nat, op: ObjectPlan)
    requires FriendsChain(g, rank) && StepsIn(g, op)
    requires op.parent == Id(0) && |op.fields| == 2 && op.fields[0].step == Id(1) && op.fields[1].step == Id(2) && op.effects == []
    ensures OwnSteps(g, rank, op, {}) == {Id(1), Id(2)}
  {
    assert Elements(Targets(op)) == {Id(1), Id(2)} by {
      assert Targets(op) == [Id(1), Id(2)];
    }
    assert {} + {op.parent} == {Id(0)};
    ScopeOfOne(g, rank, {Id(0)}, Id(2), Id(1));
    ScopeOfOne(g, rank, {Id(0)}, Id(1), Id(0));
  }

  lemma InitialIsLifted(g: Graph, rank: Id -> nat, c: ObjectPlan, above: set<Id>)
    requires FriendsChain(g, rank) && StepsIn(g, c) && Hoisted(g, rank, c, above, false)
    requires Id(2) in above && Id(3) !in above
    requires c.parent == Id(1) && |c.fields| == 1 && c.fields[0].step == Id(3)
    ensures Id(3) in c.hoistedOut
  {
    assert Targets(c)[0] == Id(3);
    assert Id(3) in Elements(Targets(c));
    assert Id(3) in Scope(g, rank, above + {Id(1)}, Id(3));
    assert Id(3) in OwnSteps(g, rank, c, above);
  }
}
