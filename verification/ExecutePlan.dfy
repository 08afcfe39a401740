/** Running a plan tree over nested buckets, with the columns of lifted steps threaded down; and why hoisting
    changes where a step runs but never what a field yields. */
module ExecutePlan {
  import opened Wrappers
  import opened Sequences
  import opened StepGraph
  import opened Ordering
  import opened StepModel
  import opened Layers

  // ----- the nest of buckets -----

  /** How completion opens one field's column into the child bucket: the index maps it applies one after another
      (live parents, list flattening, kept objects) and the child's parent objects. */
  datatype Nest<V> = Nest(hops: seq<seq<nat>>, objs: seq<V>)

  /** What a layer yields: each field's column and the results of the child buckets, in field order. */
  datatype Result<V> = Result(cols: seq<seq<V>>, kids: seq<Option<Result<V>>>)

  /** Completion of a field, given where it is, whether a list leads to the child, its column and what the fields before
      it yielded. */
  type Explode<!V> = (seq<nat>, bool, seq<V>, seq<Option<Result<V>>>) -> Nest<V>

  ghost predicate ValidHops(n: nat, hops: seq<seq<nat>>)
    decreases |hops|
  {
    hops != [] ==> (forall i :: 0 <= i < |hops[0]| ==> hops[0][i] < n) && ValidHops(|hops[0]|, hops[1..])
  }

  function Width(n: nat, hops: seq<seq<nat>>): nat
    decreases |hops|
  {
    if hops == [] then n else Width(|hops[0]|, hops[1..])
  }

  /** A column carried through the index maps, reindexed at each one in step with the values. */
  function Bridge<V>(col: seq<V>, hops: seq<seq<nat>>): (r: seq<V>)
    requires ValidHops(|col|, hops)
    ensures |r| == Width(|col|, hops)
    decreases |hops|
  {
    if hops == [] then col
    else Bridge(seq(|hops[0]|, k requires 0 <= k < |hops[0]| => col[hops[0][k]]), hops[1..])
  }

  /** The entry of the outermost bucket that owns entry `k` of the innermost one. */
  function Owner(n: nat, hops: seq<seq<nat>>, k: nat): (o: nat)
    requires ValidHops(n, hops) && k < Width(n, hops)
    ensures o < n
    decreases |hops|
  {
    if hops == [] then k else hops[0][Owner(|hops[0]|, hops[1..], k)]
  }

  /** Positions that lead, map by map, from an entry of the outermost bucket to one of the innermost: each map holds, at a
      position of the bucket behind it, the position in the bucket in front of it. */
  ghost predicate Leads(n: nat, hops: seq<seq<nat>>, path: seq<nat>)
  {
    && |path| == |hops| + 1 && path[0] < n
    && forall i :: 0 <= i < |hops| ==> path[i + 1] < |hops[i]| && path[i] == hops[i][path[i + 1]]
  }

  /** A column carried through the maps holds, at the end of such a way, what it held at its beginning. */
  lemma {:induction false} BridgeFollowsTheMaps<V>(col: seq<V>, hops: seq<seq<nat>>, path: seq<nat>)
    requires ValidHops(|col|, hops) && Leads(|col|, hops, path)
    ensures path[|hops|] < Width(|col|, hops)
    ensures Owner(|col|, hops, path[|hops|]) == path[0] && Bridge(col, hops)[path[|hops|]] == col[path[0]]
    decreases |hops|
  {
    if hops != [] {
      var next := seq(|hops[0]|, k requires 0 <= k < |hops[0]| => col[hops[0][k]]);
      assert path[0] == hops[0][path[1]];
      forall i | 0 <= i < |hops[1..]| ensures path[1..][i + 1] < |hops[1..][i]| && path[1..][i] == hops[1..][i][path[1..][i + 1]] {
        assert path[i + 2] < |hops[i + 1]| && path[i + 1] == hops[i + 1][path[i + 2]];
      }
      BridgeFollowsTheMaps(next, hops[1..], path[1..]);
      assert path[1..][|hops[1..]|] == path[|hops|];
    }
  }

  /** Every position of the innermost bucket is the end of such a way. */
  lemma {:induction false} WayTo(n: nat, hops: seq<seq<nat>>, k: nat) returns (path: seq<nat>)
    requires ValidHops(n, hops) && k < Width(n, hops)
    ensures Leads(n, hops, path) && path[|hops|] == k
    decreases |hops|
  {
    if hops == [] {
      path := [k];
    } else {
      var rest := WayTo(|hops[0]|, hops[1..], k);
      path := [hops[0][rest[0]]] + rest;
      forall i | 0 <= i < |hops| ensures path[i + 1] < |hops[i]| && path[i] == hops[i][path[i + 1]] {
        if i > 0 { assert hops[1..][i - 1] == hops[i]; }
      }
    }
  }

  /** However many maps a column is carried through, a child reads the entry of its owner, the one the maps lead to. */
  lemma BridgeReadsOwner<V>(col: seq<V>, hops: seq<seq<nat>>, k: nat)
    requires ValidHops(|col|, hops) && k < Width(|col|, hops)
    ensures Bridge(col, hops)[k] == col[Owner(|col|, hops, k)]
    ensures exists path :: Leads(|col|, hops, path) && path[|hops|] == k && path[0] == Owner(|col|, hops, k)
  {
    var path := WayTo(|col|, hops, k);
    BridgeFollowsTheMaps(col, hops, path);
  }

  /** Maps one after the other carry a column as the first ones and then the rest do. */
  lemma {:induction false} BridgeInTurn<V>(col: seq<V>, first: seq<seq<nat>>, rest: seq<seq<nat>>)
    requires ValidHops(|col|, first) && ValidHops(Width(|col|, first), rest)
    ensures ValidHops(|col|, first + rest) && Bridge(col, first + rest) == Bridge(Bridge(col, first), rest)
    decreases |first|
  {
    if first == [] {
      assert first + rest == rest;
    } else {
      assert (first + rest)[0] == first[0] && (first + rest)[1..] == first[1..] + rest;
      BridgeInTurn(seq(|first[0]|, k requires 0 <= k < |first[0]| => col[first[0][k]]), first[1..], rest);
    }
  }

  lemma OneMap(n: nat, h: seq<nat>)
    requires forall k :: 0 <= k < |h| ==> h[k] < n
    ensures ValidHops(n, [h]) && Width(n, [h]) == |h|
  {
    assert [h][1..] == [] && [h][0] == h && ValidHops(|h|, []);
  }

  /** Through a single map: position `k` of the child reads position `h[k]` of the bucket above. */
  lemma OneMapReads<V>(col: seq<V>, h: seq<nat>, k: nat)
    requires (forall j :: 0 <= j < |h| ==> h[j] < |col|) && k < |h|
    ensures ValidHops(|col|, [h]) && Width(|col|, [h]) == |h| && Owner(|col|, [h], k) == h[k] && Bridge(col, [h])[k] == col[h[k]]
  {
    OneMap(|col|, h);
    BridgeFollowsTheMaps(col, [h], [h[k], k]);
  }

  /** Without a list in between, the child's objects are the column's own entries. */
  ghost predicate KeepsEntries<V>(col: seq<V>, nest: Nest<V>)
    requires ValidHops(|col|, nest.hops) && |nest.objs| == Width(|col|, nest.hops)
  {
    forall k :: 0 <= k < |nest.objs| ==> nest.objs[k] == col[Owner(|col|, nest.hops, k)]
  }

  ghost predicate ValidNest<V>(isList: bool, col: seq<V>, nest: Nest<V>)
  {
    ValidHops(|col|, nest.hops) && |nest.objs| == Width(|col|, nest.hops) && (!isList ==> KeepsEntries(col, nest))
  }

  ghost predicate ValidExplode<V(!new)>(ex: Explode<V>)
  {
    forall path, isList, col, done :: ValidNest(isList, col, ex(path, isList, col, done))
  }

  /** The lifted columns as the child bucket reads them. */
  function Bridged<V>(store: Store<V>, n: nat, lifted: set<Id>, hops: seq<seq<nat>>): (r: Store<V>)
    requires Columns(store, n) && lifted <= store.Keys && ValidHops(n, hops)
    ensures r.Keys == lifted && Columns(r, Width(n, hops))
    ensures forall y :: y in lifted ==> r[y] == Bridge(store[y], hops)
  {
    map y | y in lifted :: Bridge(store[y], hops)
  }

  /** What a child bucket starts from when one map leads to it: its seeds are the columns above read at the positions the
      map names, and so are its objects when no list is in between. */
  lemma ChildReadsThroughTheMap<V>(store: Store<V>, n: nat, lifted: set<Id>, isList: bool, col: seq<V>, nest: Nest<V>, h: seq<nat>, y: Id, k: nat)
    requires Columns(store, n) && lifted <= store.Keys && y in lifted && |col| == n && ValidNest(isList, col, nest) && nest.hops == [h] && k < |h|
    ensures |nest.objs| == |h| && h[k] < n && Bridged(store, n, lifted, nest.hops)[y][k] == store[y][h[k]]
    ensures !isList ==> nest.objs[k] == col[h[k]]
  {
    OneMapReads(store[y], h, k);
    OneMapReads(col, h, k);
  }

  // ----- running -----

  /** `run_layer`: the boundary and the lifted columns are seeded, the rest is run in order. */
  ghost function LayerStore<V>(g: Graph, sem: (Op, seq<V>) -> V, op: ObjectPlan, objs: seq<V>, seeds: Store<V>): (store: Store<V>)
    requires Runnable(g, op) && seeds.Keys == op.hoistedOut && Columns(seeds, |objs|)
    ensures store.Keys == Cut(op) + Elements(op.ordered) && Columns(store, |objs|)
  {
    var seed := seeds[op.parent := objs];
    assert seed.Keys == Cut(op);
    DepsFirstCanRun(g, seed.Keys, op.ordered);
    RunEach(g, sem, |objs|, op.ordered, seed)
  }

  /** `run_layer` as it runs: seeds, then `run_steps` with the request-constant steps once. */
  method RunLayer<V>(g: Graph, sem: (Op, seq<V>) -> V, op: ObjectPlan, objs: seq<V>, seeds: Store<V>, capable: set<Id>)
    returns (store: Store<V>)
    requires Runnable(g, op) && Distinct(op.ordered) && seeds.Keys == op.hoistedOut && Columns(seeds, |objs|)
    ensures store == LayerStore(g, sem, op, objs, seeds)
  {
    var seed := seeds[op.parent := objs];
    assert seed.Keys == Cut(op);
    store := RunSteps(g, sem, |objs|, op.ordered, seed, capable);
  }

  /** `execute_object_plan`: run the layer, then complete its fields in turn. */
  ghost function RunPlan<V(!new)>(g: Graph, sem: (Op, seq<V>) -> V, ex: Explode<V>, path: seq<nat>, op: ObjectPlan,
                                  objs: seq<V>, seeds: Store<V>): Result<V>
    requires ValidExplode(ex) && Runnable(g, op) && seeds.Keys == op.hoistedOut && Columns(seeds, |objs|)
    decreases op, |op.fields| + 1
  {
    var store := LayerStore(g, sem, op, objs, seeds);
    Result(seq(|op.fields|, i requires 0 <= i < |op.fields| => store[op.fields[i].step]),
           RunFields(g, sem, ex, path, op, store, |objs|, |op.fields|))
  }

  /** The first `k` fields' child buckets. */
  ghost function RunFields<V(!new)>(g: Graph, sem: (Op, seq<V>) -> V, ex: Explode<V>, path: seq<nat>, op: ObjectPlan,
                                    store: Store<V>, n: nat, k: nat): (r: seq<Option<Result<V>>>)
    requires ValidExplode(ex) && Runnable(g, op) && k <= |op.fields|
    requires store.Keys == Cut(op) + Elements(op.ordered) && Columns(store, n)
    ensures |r| == k
    decreases op, k
  {
    if k == 0 then []
    else
      var done := RunFields(g, sem, ex, path, op, store, n, k - 1);
      done + [if HasChild(op, k - 1) then Some(RunChild(g, sem, ex, path, op, store, n, k - 1, done)) else None]
  }

  /** One child bucket: its objects from completion, its lifted columns from this bucket's store. */
  ghost function RunChild<V(!new)>(g: Graph, sem: (Op, seq<V>) -> V, ex: Explode<V>, path: seq<nat>, op: ObjectPlan,
                                   store: Store<V>, n: nat, i: nat, done: seq<Option<Result<V>>>): Result<V>
    requires ValidExplode(ex) && Runnable(g, op) && HasChild(op, i)
    requires store.Keys == Cut(op) + Elements(op.ordered) && Columns(store, n)
    decreases op, 0
  {
    var c := Child(op, i);
    var nest := ex(path + [i], op.fields[i].isList, store[op.fields[i].step], done);
    RunPlan(g, sem, ex, path + [i], c, nest.objs, Bridged(store, n, c.hoistedOut, nest.hops))
  }

  // ----- what a plan means -----

  /** The value of a step at a bucket position: computed from the object there, bound to the bucket's boundary. */
  ghost function At<V>(g: Graph, rank: Id -> nat, sem: (Op, seq<V>) -> V, op: ObjectPlan, o: V, s: Id): V
    requires Ranked(g, rank) && s in g
  {
    Eval(g, rank, sem, map[op.parent := o], s)
  }

  /** The same nest of buckets with every field's column given by what its step means; no stores, no annotations. */
  ghost function Meaning<V(!new)>(g: Graph, rank: Id -> nat, sem: (Op, seq<V>) -> V, ex: Explode<V>, path: seq<nat>,
                                  op: ObjectPlan, objs: seq<V>): Result<V>
    requires Ranked(g, rank) && StepsIn(g, op)
    decreases op, |op.fields| + 1
  {
    Result(seq(|op.fields|, i requires 0 <= i < |op.fields| => FieldMeaning(g, rank, sem, op, objs, i)),
           FieldsMeaning(g, rank, sem, ex, path, op, objs, |op.fields|))
  }

  ghost function FieldMeaning<V>(g: Graph, rank: Id -> nat, sem: (Op, seq<V>) -> V, op: ObjectPlan, objs: seq<V>, i: nat): (col: seq<V>)
    requires Ranked(g, rank) && StepsIn(g, op) && i < |op.fields|
    ensures |col| == |objs|
  {
    assert Targets(op)[i] == op.fields[i].step;
    assert op.fields[i].step in Targets(op);
    seq(|objs|, k requires 0 <= k < |objs| => At(g, rank, sem, op, objs[k], op.fields[i].step))
  }

  ghost function FieldsMeaning<V(!new)>(g: Graph, rank: Id -> nat, sem: (Op, seq<V>) -> V, ex: Explode<V>, path: seq<nat>,
                                        op: ObjectPlan, objs: seq<V>, k: nat): (r: seq<Option<Result<V>>>)
    requires Ranked(g, rank) && StepsIn(g, op) && k <= |op.fields|
    ensures |r| == k
    decreases op, k
  {
    if k == 0 then []
    else
      var done := FieldsMeaning(g, rank, sem, ex, path, op, objs, k - 1);
      done + [if HasChild(op, k - 1)
              then Some(Meaning(g, rank, sem, ex, path + [k - 1], Child(op, k - 1),
                                ex(path + [k - 1], op.fields[k - 1].isList, FieldMeaning(g, rank, sem, op, objs, k - 1), done).objs))
              else None]
  }

  // ----- what a run puts into its stores -----

  /** A layer of the tree as its ancestors see it: each one's boundary, what was lifted out of it, and whether a list
      leads to it. */
  datatype Chain = Top(boundary: Id) | Under(outer: Chain, boundary: Id, lifted: set<Id>, isList: bool)

  /** How deep a layer lies. */
  ghost function Level(chain: Chain): nat
    decreases chain
  {
    match chain
    case Top(_) => 0
    case Under(outer, _, _, _) => Level(outer) + 1
  }

  /** Whether the layer takes `s` from the layer above: a step lifted out of it, or its boundary when no list leads to it,
      whose column above holds the bucket's very objects. */
  ghost predicate FromAbove(chain: Chain, s: Id)
  {
    chain.Under? && if s == chain.boundary then !chain.isList else s in chain.lifted
  }

  /** The layer `s` comes from, as the given one gets it. */
  ghost function Source(chain: Chain, s: Id): (p: Chain)
    ensures Level(p) <= Level(chain) && !FromAbove(p, s)
    decreases chain
  {
    if FromAbove(chain, s) then Source(chain.outer, s) else chain
  }

  /** What the run holds for `s` at a position, given the objects that own it from the operation's bucket down: where `s`
      comes from it is that bucket's object, or computed from what is held there. */
  ghost function Seen<V>(g: Graph, rank: Id -> nat, sem: (Op, seq<V>) -> V, chain: Chain, place: seq<V>, s: Id): V
    requires Ranked(g, rank) && s in g && Level(chain) < |place|
    decreases rank(s), 1
  {
    var p := Source(chain, s);
    if s == p.boundary then place[Level(p)] else sem(g[s].op, SeenArgs(g, rank, sem, p, place, s))
  }

  ghost function SeenArgs<V>(g: Graph, rank: Id -> nat, sem: (Op, seq<V>) -> V, p: Chain, place: seq<V>, s: Id): (args: seq<V>)
    requires Ranked(g, rank) && s in g && Level(p) < |place|
    ensures |args| == |g[s].deps|
    decreases rank(s), 0
  {
    seq(|g[s].deps|, i requires 0 <= i < |g[s].deps| => Seen(g, rank, sem, p, place, g[s].deps[i]))
  }

  lemma SeenByDeps<V>(g: Graph, rank: Id -> nat, sem: (Op, seq<V>) -> V, chain: Chain, place: seq<V>, s: Id, args: seq<V>)
    requires Ranked(g, rank) && s in g && Level(chain) < |place|
    requires s != Source(chain, s).boundary && |args| == |g[s].deps|
    requires forall i :: 0 <= i < |args| ==> args[i] == Seen(g, rank, sem, Source(chain, s), place, g[s].deps[i])
    ensures Seen(g, rank, sem, chain, place, s) == sem(g[s].op, args)
  {
    assert args == SeenArgs(g, rank, sem, Source(chain, s), place, s);
  }

  /** Only the owners down to the layer matter. */
  lemma {:induction false} SeenByOwners<V>(g: Graph, rank: Id -> nat, sem: (Op, seq<V>) -> V, chain: Chain, place: seq<V>, o: V, s: Id)
    requires Ranked(g, rank) && s in g && Level(chain) < |place|
    ensures Seen(g, rank, sem, chain, place + [o], s) == Seen(g, rank, sem, chain, place, s)
    decreases rank(s)
  {
    var p := Source(chain, s);
    if s != p.boundary {
      var args := SeenArgs(g, rank, sem, p, place, s);
      forall i | 0 <= i < |args|
        ensures args[i] == Seen(g, rank, sem, p, place + [o], g[s].deps[i])
      {
        SeenByOwners(g, rank, sem, p, place, o, g[s].deps[i]);
      }
      SeenByDeps(g, rank, sem, chain, place + [o], s, args);
    }
  }

  /** Followed to where they come from, `s` as layer `a` gets it and `t` as layer `b` does are the same bucket's object, or
      the same operation over dependencies of which this holds in turn. */
  ghost predicate Agree(g: Graph, rank: Id -> nat, a: Chain, s: Id, b: Chain, t: Id)
    requires Ranked(g, rank) && s in g && t in g
    decreases rank(s), 1
  {
    var p, q := Source(a, s), Source(b, t);
    if s == p.boundary || t == q.boundary then s == p.boundary && t == q.boundary && Level(p) == Level(q)
    else g[s].op == g[t].op && |g[s].deps| == |g[t].deps| && forall i :: 0 <= i < |g[s].deps| ==> AgreeAt(g, rank, p, s, q, t, i)
  }

  ghost predicate AgreeAt(g: Graph, rank: Id -> nat, p: Chain, s: Id, q: Chain, t: Id, i: nat)
    requires Ranked(g, rank) && s in g && t in g && i < |g[s].deps| == |g[t].deps|
    decreases rank(s), 0
  {
    assert g[s].deps[i] in g[s].deps && g[t].deps[i] in g[t].deps;
    Agree(g, rank, p, g[s].deps[i], q, g[t].deps[i])
  }

  /** Where walks agree the run holds one value, for every interpretation and at every position. */
  lemma {:induction false} AgreeIsSame<V>(g: Graph, rank: Id -> nat, sem: (Op, seq<V>) -> V, a: Chain, s: Id, b: Chain, t: Id, place: seq<V>)
    requires Ranked(g, rank) && s in g && t in g && Agree(g, rank, a, s, b, t) && Level(a) < |place| && Level(b) < |place|
    ensures Seen(g, rank, sem, a, place, s) == Seen(g, rank, sem, b, place, t)
    decreases rank(s)
  {
    var p, q := Source(a, s), Source(b, t);
    if s != p.boundary {
      var args := SeenArgs(g, rank, sem, p, place, s);
      forall i | 0 <= i < |args|
        ensures args[i] == Seen(g, rank, sem, q, place, g[t].deps[i])
      {
        assert AgreeAt(g, rank, p, s, q, t, i);
        AgreeIsSame(g, rank, sem, p, g[s].deps[i], q, g[t].deps[i], place);
      }
      SeenByDeps(g, rank, sem, b, place, t, args);
    }
  }

  lemma {:induction false} AgreesWithItself(g: Graph, rank: Id -> nat, a: Chain, s: Id)
    requires Ranked(g, rank) && s in g
    ensures Agree(g, rank, a, s, a, s)
    decreases rank(s)
  {
    var p := Source(a, s);
    forall i | 0 <= i < |g[s].deps| ensures AgreeAt(g, rank, p, s, p, s, i) { AgreesWithItself(g, rank, p, g[s].deps[i]); }
  }

  /** The layer as planned: it runs everything itself and takes from above at most its boundary. */
  function Unlifted(chain: Chain): Chain
  {
    if chain.Under? then chain.(lifted := {}) else chain
  }

  /** As planned a layer holds what each step means in its own bucket, whose object is what is held for the boundary. */
  lemma {:induction false} UnliftedIsMeant<V>(g: Graph, rank: Id -> nat, sem: (Op, seq<V>) -> V, chain: Chain, place: seq<V>, s: Id)
    requires Ranked(g, rank) && s in g && chain.boundary in g && Level(chain) < |place|
    ensures Seen(g, rank, sem, Unlifted(chain), place, s) == Eval(g, rank, sem, map[chain.boundary := Seen(g, rank, sem, chain, place, chain.boundary)], s)
    decreases rank(s)
  {
    var u, env := Unlifted(chain), map[chain.boundary := Seen(g, rank, sem, chain, place, chain.boundary)];
    if s == chain.boundary {
      if !FromAbove(chain, s) { assert Source(u, s) == u && Source(chain, s) == chain; }
    } else {
      assert Source(u, s) == u;
      var args := seq(|g[s].deps|, i requires 0 <= i < |g[s].deps| => Eval(g, rank, sem, env, g[s].deps[i]));
      forall i | 0 <= i < |args|
        ensures args[i] == Seen(g, rank, sem, u, place, g[s].deps[i])
      {
        UnliftedIsMeant(g, rank, sem, chain, place, g[s].deps[i]);
      }
      SeenByDeps(g, rank, sem, u, place, s, args);
    }
  }

  /** A walk is seamless when it agrees with the planned one.  Then the run holds what the step means in the bucket. */
  lemma SeamlessIsMeant<V>(g: Graph, rank: Id -> nat, sem: (Op, seq<V>) -> V, chain: Chain, place: seq<V>, s: Id)
    requires Ranked(g, rank) && s in g && chain.boundary in g && Level(chain) < |place| && Agree(g, rank, chain, s, Unlifted(chain), s)
    ensures Seen(g, rank, sem, chain, place, s) == Eval(g, rank, sem, map[chain.boundary := Seen(g, rank, sem, chain, place, chain.boundary)], s)
  {
    AgreeIsSame(g, rank, sem, chain, s, Unlifted(chain), s, place);
    UnliftedIsMeant(g, rank, sem, chain, place, s);
  }

  /** The positions of a layer: one owner to each layer down to it. */
  ghost predicate Fit<V>(chain: Chain, places: seq<seq<V>>)
  {
    forall k :: 0 <= k < |places| ==> |places[k]| == Level(chain) + 1
  }

  /** Every column of `store`, those of `except` aside, holds at each position what the run is to hold there. */
  ghost predicate Shows<V>(g: Graph, rank: Id -> nat, sem: (Op, seq<V>) -> V, chain: Chain, places: seq<seq<V>>, store: Store<V>, except: set<Id>)
    requires Ranked(g, rank) && Fit(chain, places)
  {
    && Columns(store, |places|)
    && forall s, k :: s in store && s in g && s !in except && 0 <= k < |places| ==> store[s][k] == Seen(g, rank, sem, chain, places[k], s)
  }

  lemma StepShows<V>(g: Graph, rank: Id -> nat, sem: (Op, seq<V>) -> V, chain: Chain, places: seq<seq<V>>, store: Store<V>, s: Id)
    requires Ranked(g, rank) && Fit(chain, places) && Shows(g, rank, sem, chain, places, store, {})
    requires s in g && s != chain.boundary && !FromAbove(chain, s) && forall d :: d in g[s].deps ==> d in store
    ensures Shows(g, rank, sem, chain, places, store[s := Execute(g, sem, store, s, |places|)], {})
  {
    forall k | 0 <= k < |places|
      ensures Execute(g, sem, store, s, |places|)[k] == Seen(g, rank, sem, chain, places[k], s)
    {
      var args := seq(|g[s].deps|, j requires 0 <= j < |g[s].deps| => assert g[s].deps[j] in g[s].deps; store[g[s].deps[j]][k]);
      forall j | 0 <= j < |args|
        ensures args[j] == Seen(g, rank, sem, chain, places[k], g[s].deps[j])
      {
        assert g[s].deps[j] in g[s].deps;
      }
      SeenByDeps(g, rank, sem, chain, places[k], s, args);
    }
  }

  lemma {:induction false} RunShows<V>(g: Graph, rank: Id -> nat, sem: (Op, seq<V>) -> V, chain: Chain, places: seq<seq<V>>,
                                       ordered: seq<Id>, store: Store<V>)
    requires Ranked(g, rank) && Fit(chain, places) && Shows(g, rank, sem, chain, places, store, {})
    requires CanRun(g, store.Keys, ordered) && forall s :: s in ordered ==> s != chain.boundary && !FromAbove(chain, s)
    ensures Shows(g, rank, sem, chain, places, RunEach(g, sem, |places|, ordered, store), {})
    decreases |ordered|
  {
    if ordered != [] {
      var next := store[ordered[0] := Execute(g, sem, store, ordered[0], |places|)];
      assert next.Keys == store.Keys + {ordered[0]};
      assert ordered[0] in ordered;
      StepShows(g, rank, sem, chain, places, store, ordered[0]);
      forall s | s in ordered[1..] ensures s in ordered {}
      RunShows(g, rank, sem, chain, places, ordered[1..], next);
    }
  }

  /** A bucket's objects are what is held for the boundary at its positions. */
  ghost predicate Placed<V>(g: Graph, rank: Id -> nat, sem: (Op, seq<V>) -> V, chain: Chain, objs: seq<V>, places: seq<seq<V>>)
    requires Ranked(g, rank) && chain.boundary in g
  {
    && |places| == |objs| && Fit(chain, places)
    && forall k :: 0 <= k < |places| ==> Seen(g, rank, sem, chain, places[k], chain.boundary) == objs[k]
  }

  /** `chain` is `op`'s place in the tree, `places` are its bucket's positions. */
  ghost predicate Stands<V>(g: Graph, rank: Id -> nat, sem: (Op, seq<V>) -> V, op: ObjectPlan, chain: Chain, objs: seq<V>, places: seq<seq<V>>)
    requires Ranked(g, rank) && op.parent in g
  {
    && chain.boundary == op.parent && op.hoistedOut == (if chain.Under? then chain.lifted else {})
    && Placed(g, rank, sem, chain, objs, places)
  }

  lemma LayerShows<V>(g: Graph, rank: Id -> nat, sem: (Op, seq<V>) -> V, op: ObjectPlan, chain: Chain, objs: seq<V>, places: seq<seq<V>>,
                      seeds: Store<V>)
    requires Ranked(g, rank) && op.parent in g && Runnable(g, op) && seeds.Keys == op.hoistedOut && Stands(g, rank, sem, op, chain, objs, places)
    requires Shows(g, rank, sem, chain, places, seeds, {op.parent})
    ensures Shows(g, rank, sem, chain, places, LayerStore(g, sem, op, objs, seeds), {})
  {
    var seed := seeds[op.parent := objs];
    assert seed.Keys == Cut(op);
    DepsFirstCanRun(g, seed.Keys, op.ordered);
    assert Shows(g, rank, sem, chain, places, seed, {});
    RunShows(g, rank, sem, chain, places, op.ordered, seed);
  }

  ghost function ChildChain(op: ObjectPlan, chain: Chain, i: int): Chain
    requires HasChild(op, i)
  {
    Under(chain, Child(op, i).parent, Child(op, i).hoistedOut, op.fields[i].isList)
  }

  /** The child's positions, each inside the position that owns it. */
  ghost function ChildPlaces<V>(places: seq<seq<V>>, nest: Nest<V>): (r: seq<seq<V>>)
    requires ValidHops(|places|, nest.hops) && |nest.objs| == Width(|places|, nest.hops)
    ensures |r| == |nest.objs|
    ensures forall k :: 0 <= k < |r| ==> r[k] == places[Owner(|places|, nest.hops, k)] + [nest.objs[k]]
  {
    seq(|nest.objs|, k requires 0 <= k < |nest.objs| => places[Owner(|places|, nest.hops, k)] + [nest.objs[k]])
  }

  /** A field whose column is what is held for its step opens into a bucket whose objects are, too: items of a list are
      objects of their own, and otherwise they are the column's entries. */
  lemma ChildIsPlaced<V>(g: Graph, rank: Id -> nat, sem: (Op, seq<V>) -> V, inner: Chain, places: seq<seq<V>>, col: seq<V>, nest: Nest<V>)
    requires Ranked(g, rank) && inner.Under? && inner.boundary in g && Fit(inner.outer, places) && |col| == |places|
    requires forall k :: 0 <= k < |col| ==> col[k] == Seen(g, rank, sem, inner.outer, places[k], inner.boundary)
    requires ValidNest(inner.isList, col, nest)
    ensures Placed(g, rank, sem, inner, nest.objs, ChildPlaces(places, nest))
  {
    var places' := ChildPlaces(places, nest);
    forall k | 0 <= k < |places'|
      ensures Seen(g, rank, sem, inner, places'[k], inner.boundary) == nest.objs[k]
    {
      SeenByOwners(g, rank, sem, inner.outer, places[Owner(|places|, nest.hops, k)], nest.objs[k], inner.boundary);
    }
  }

  /** The columns bridged to a child are what the run is to hold there. */
  lemma BridgedShows<V>(g: Graph, rank: Id -> nat, sem: (Op, seq<V>) -> V, op: ObjectPlan, chain: Chain, objs: seq<V>, places: seq<seq<V>>,
                        store: Store<V>, i: nat, nest: Nest<V>)
    requires Ranked(g, rank) && StepsIn(g, op) && HasChild(op, i) && Stands(g, rank, sem, op, chain, objs, places)
    requires Shows(g, rank, sem, chain, places, store, {})
    requires op.fields[i].step in store && Child(op, i).parent == op.fields[i].step && ValidNest(op.fields[i].isList, store[op.fields[i].step], nest)
    requires Child(op, i).hoistedOut <= store.Keys
    ensures Stands(g, rank, sem, Child(op, i), ChildChain(op, chain, i), nest.objs, ChildPlaces(places, nest))
    ensures Shows(g, rank, sem, ChildChain(op, chain, i), ChildPlaces(places, nest),
                  Bridged(store, |objs|, Child(op, i).hoistedOut, nest.hops), {Child(op, i).parent})
    ensures forall y, path :: y in Child(op, i).hoistedOut && Leads(|objs|, nest.hops, path) ==>
              path[|nest.hops|] < |nest.objs| && Bridged(store, |objs|, Child(op, i).hoistedOut, nest.hops)[y][path[|nest.hops|]] == store[y][path[0]]
  {
    var c, inner, places' := Child(op, i), ChildChain(op, chain, i), ChildPlaces(places, nest);
    forall y, path | y in c.hoistedOut && Leads(|objs|, nest.hops, path)
      ensures path[|nest.hops|] < |nest.objs| && Bridged(store, |objs|, c.hoistedOut, nest.hops)[y][path[|nest.hops|]] == store[y][path[0]]
    {
      BridgeFollowsTheMaps(store[y], nest.hops, path);
    }
    ChildIsPlaced(g, rank, sem, inner, places, store[op.fields[i].step], nest);
    forall y, k | y in c.hoistedOut && y in g && y != c.parent && 0 <= k < |places'|
      ensures Bridged(store, |objs|, c.hoistedOut, nest.hops)[y][k] == Seen(g, rank, sem, inner, places'[k], y)
    {
      BridgeReadsOwner(store[y], nest.hops, k);
      SeenByOwners(g, rank, sem, chain, places[Owner(|places|, nest.hops, k)], nest.objs[k], y);
    }
  }

  // ----- a seamless tree yields what it means -----

  /** Every field of every layer is read along a seamless walk. */
  ghost predicate SeamlessTree(g: Graph, rank: Id -> nat, op: ObjectPlan, chain: Chain)
    requires Ranked(g, rank) && StepsIn(g, op)
    decreases op
  {
    && (forall i :: 0 <= i < |op.fields| ==> FieldIsSeamless(g, rank, op, chain, i))
    && forall i :: HasChild(op, i) ==> SeamlessTree(g, rank, Child(op, i), ChildChain(op, chain, i))
  }

  ghost predicate FieldIsSeamless(g: Graph, rank: Id -> nat, op: ObjectPlan, chain: Chain, i: nat)
    requires Ranked(g, rank) && StepsIn(g, op) && i < |op.fields|
  {
    assert Targets(op)[i] == op.fields[i].step && op.fields[i].step in Targets(op);
    Agree(g, rank, chain, op.fields[i].step, Unlifted(chain), op.fields[i].step)
  }

  /** A runnable seamless tree yields what it means, whatever was lifted where. */
  lemma {:induction false} RunIsMeaning<V(!new)>(g: Graph, rank: Id -> nat, sem: (Op, seq<V>) -> V, ex: Explode<V>, path: seq<nat>,
                                                 op: ObjectPlan, chain: Chain, objs: seq<V>, places: seq<seq<V>>, seeds: Store<V>)
    requires Ranked(g, rank) && StepsIn(g, op) && BoundedByFields(op) && ValidExplode(ex) && Runnable(g, op) && SeamlessTree(g, rank, op, chain)
    requires Stands(g, rank, sem, op, chain, objs, places) && seeds.Keys == op.hoistedOut && Shows(g, rank, sem, chain, places, seeds, {op.parent})
    ensures RunPlan(g, sem, ex, path, op, objs, seeds) == Meaning(g, rank, sem, ex, path, op, objs)
    decreases op, |op.fields| + 1
  {
    var store := LayerStore(g, sem, op, objs, seeds);
    LayerShows(g, rank, sem, op, chain, objs, places, seeds);
    FieldsRunMean(g, rank, sem, ex, path, op, chain, objs, places, store, |op.fields|);
    forall i | 0 <= i < |op.fields|
      ensures store[op.fields[i].step] == FieldMeaning(g, rank, sem, op, objs, i)
    {
      ColumnMeans(g, rank, sem, op, chain, objs, places, store, i);
    }
  }

  lemma ColumnMeans<V>(g: Graph, rank: Id -> nat, sem: (Op, seq<V>) -> V, op: ObjectPlan, chain: Chain, objs: seq<V>, places: seq<seq<V>>,
                       store: Store<V>, i: nat)
    requires Ranked(g, rank) && StepsIn(g, op) && Runnable(g, op) && i < |op.fields| && FieldIsSeamless(g, rank, op, chain, i)
    requires Stands(g, rank, sem, op, chain, objs, places)
    requires store.Keys == Cut(op) + Elements(op.ordered) && Shows(g, rank, sem, chain, places, store, {})
    ensures store[op.fields[i].step] == FieldMeaning(g, rank, sem, op, objs, i)
  {
    var s := op.fields[i].step;
    assert Targets(op)[i] == s && s in Targets(op);
    forall k | 0 <= k < |objs|
      ensures store[s][k] == FieldMeaning(g, rank, sem, op, objs, i)[k]
    {
      SeamlessIsMeant(g, rank, sem, chain, places[k], s);
    }
  }

  lemma {:induction false} FieldsRunMean<V(!new)>(g: Graph, rank: Id -> nat, sem: (Op, seq<V>) -> V, ex: Explode<V>, path: seq<nat>,
                                                  op: ObjectPlan, chain: Chain, objs: seq<V>, places: seq<seq<V>>, store: Store<V>, k: nat)
    requires Ranked(g, rank) && StepsIn(g, op) && BoundedByFields(op) && ValidExplode(ex) && k <= |op.fields| && Runnable(g, op)
    requires SeamlessTree(g, rank, op, chain) && Stands(g, rank, sem, op, chain, objs, places)
    requires store.Keys == Cut(op) + Elements(op.ordered) && Shows(g, rank, sem, chain, places, store, {})
    ensures RunFields(g, sem, ex, path, op, store, |objs|, k) == FieldsMeaning(g, rank, sem, ex, path, op, objs, k)
    decreases op, k
  {
    if k > 0 {
      FieldsRunMean(g, rank, sem, ex, path, op, chain, objs, places, store, k - 1);
      if HasChild(op, k - 1) {
        var done := FieldsMeaning(g, rank, sem, ex, path, op, objs, k - 1);
        ChildRunMeans(g, rank, sem, ex, path, op, chain, objs, places, store, k - 1, done);
      }
    }
  }

  lemma {:induction false} ChildRunMeans<V(!new)>(g: Graph, rank: Id -> nat, sem: (Op, seq<V>) -> V, ex: Explode<V>, path: seq<nat>,
                                                  op: ObjectPlan, chain: Chain, objs: seq<V>, places: seq<seq<V>>, store: Store<V>, i: nat,
                                                  done: seq<Option<Result<V>>>)
    requires Ranked(g, rank) && StepsIn(g, op) && BoundedByFields(op) && ValidExplode(ex) && HasChild(op, i) && Runnable(g, op)
    requires SeamlessTree(g, rank, op, chain) && Stands(g, rank, sem, op, chain, objs, places)
    requires store.Keys == Cut(op) + Elements(op.ordered) && Shows(g, rank, sem, chain, places, store, {})
    ensures RunChild(g, sem, ex, path, op, store, |objs|, i, done)
         == Meaning(g, rank, sem, ex, path + [i], Child(op, i),
                    ex(path + [i], op.fields[i].isList, FieldMeaning(g, rank, sem, op, objs, i), done).objs)
    decreases op, 0
  {
    var c := Child(op, i);
    assert FieldIsSeamless(g, rank, op, chain, i);
    ColumnMeans(g, rank, sem, op, chain, objs, places, store, i);
    var nest := ex(path + [i], op.fields[i].isList, store[op.fields[i].step], done);
    assert ValidNest(op.fields[i].isList, store[op.fields[i].step], nest);
    BridgedShows(g, rank, sem, op, chain, objs, places, store, i, nest);
    RunIsMeaning(g, rank, sem, ex, path + [i], c, ChildChain(op, chain, i), nest.objs, ChildPlaces(places, nest),
                 Bridged(store, |objs|, c.hoistedOut, nest.hops));
  }

  /** The positions of an operation's own bucket. */
  function TopPlaces<V>(objs: seq<V>): (r: seq<seq<V>>)
    ensures |r| == |objs| && forall k :: 0 <= k < |r| ==> r[k] == [objs[k]]
  {
    seq(|objs|, k requires 0 <= k < |objs| => [objs[k]])
  }

  // ----- meaning depends on the shape alone -----

  lemma {:induction false} MeaningOfShape<V(!new)>(g: Graph, rank: Id -> nat, sem: (Op, seq<V>) -> V, ex: Explode<V>,
                                                   path: seq<nat>, a: ObjectPlan, b: ObjectPlan, objs: seq<V>)
    requires Ranked(g, rank) && StepsIn(g, a) && StepsIn(g, b) && SameShape(a, b)
    ensures Meaning(g, rank, sem, ex, path, a, objs) == Meaning(g, rank, sem, ex, path, b, objs)
    decreases a, |a.fields| + 1
  {
    FieldsOfShape(g, rank, sem, ex, path, a, b, objs, |a.fields|);
    forall i | 0 <= i < |a.fields|
      ensures FieldMeaning(g, rank, sem, a, objs, i) == FieldMeaning(g, rank, sem, b, objs, i)
    {
    }
  }

  lemma {:induction false} FieldsOfShape<V(!new)>(g: Graph, rank: Id -> nat, sem: (Op, seq<V>) -> V, ex: Explode<V>,
                                                  path: seq<nat>, a: ObjectPlan, b: ObjectPlan, objs: seq<V>, k: nat)
    requires Ranked(g, rank) && StepsIn(g, a) && StepsIn(g, b) && SameShape(a, b) && k <= |a.fields|
    ensures FieldsMeaning(g, rank, sem, ex, path, a, objs, k) == FieldsMeaning(g, rank, sem, ex, path, b, objs, k)
    decreases a, k
  {
    if k > 0 {
      FieldsOfShape(g, rank, sem, ex, path, a, b, objs, k - 1);
      assert HasChild(a, k - 1) <==> HasChild(b, k - 1);
      if HasChild(a, k - 1) {
        var done := FieldsMeaning(g, rank, sem, ex, path, a, objs, k - 1);
        assert FieldMeaning(g, rank, sem, a, objs, k - 1) == FieldMeaning(g, rank, sem, b, objs, k - 1);
        var nest := ex(path + [k - 1], a.fields[k - 1].isList, FieldMeaning(g, rank, sem, a, objs, k - 1), done);
        MeaningOfShape(g, rank, sem, ex, path + [k - 1], Child(a, k - 1), Child(b, k - 1), nest.objs);
      }
    }
  }

  // ----- hoisting on and off -----

  /** A planned tree, before hoisting, that hoisting leaves seamless: its layers are walked with what hoisting will lift
      out of each, which the plan alone determines. */
  ghost predicate SeamlessPlan(g: Graph, rank: Id -> nat, op: ObjectPlan, above: set<Id>, chain: Chain)
    requires Ranked(g, rank) && StepsIn(g, op)
    decreases op
  {
    && (forall i :: 0 <= i < |op.fields| ==> FieldIsSeamless(g, rank, op, chain, i))
    && forall i :: HasChild(op, i) ==>
         SeamlessPlan(g, rank, Child(op, i), AboveChild(g, rank, op, above, Child(op, i).parent), PlannedChain(g, rank, op, above, chain, i))
  }

  ghost function PlannedChain(g: Graph, rank: Id -> nat, op: ObjectPlan, above: set<Id>, chain: Chain, i: int): Chain
    requires Ranked(g, rank) && StepsIn(g, op) && HasChild(op, i)
  {
    var c := Child(op, i);
    Under(chain, c.parent, Lifts(g, rank, c, AboveChild(g, rank, op, above, c.parent)), op.fields[i].isList)
  }

  /** The plan's condition is the hoisted tree's. */
  lemma {:induction false} SeamlessWhenHoisted(g: Graph, rank: Id -> nat, plain: ObjectPlan, hoisted: ObjectPlan, above: set<Id>, isTop: bool, chain: Chain)
    requires Ranked(g, rank) && StepsIn(g, plain) && StepsIn(g, hoisted) && SameShape(plain, hoisted) && Hoisted(g, rank, hoisted, above, isTop)
    ensures SeamlessPlan(g, rank, plain, above, chain) <==> SeamlessTree(g, rank, hoisted, chain)
    decreases plain
  {
    SameTargets(plain, hoisted);
    forall i | 0 <= i < |plain.fields|
      ensures FieldIsSeamless(g, rank, plain, chain, i) <==> FieldIsSeamless(g, rank, hoisted, chain, i)
    {
    }
    forall i | HasChild(plain, i)
      ensures HasChild(hoisted, i)
      ensures SeamlessPlan(g, rank, Child(plain, i), AboveChild(g, rank, plain, above, Child(plain, i).parent), PlannedChain(g, rank, plain, above, chain, i))
         <==> SeamlessTree(g, rank, Child(hoisted, i), ChildChain(hoisted, chain, i))
    {
      assert HasChild(hoisted, i);
      var c, h := Child(plain, i), Child(hoisted, i);
      var aboveChild := AboveChild(g, rank, plain, above, c.parent);
      LiftsAreHoistedOut(g, rank, c, h, aboveChild);
      SeamlessWhenHoisted(g, rank, c, h, aboveChild, false, Under(chain, c.parent, h.hoistedOut, plain.fields[i].isList));
    }
  }

  /** One tree, laid out without and with hoisting. */
  ghost predicate OffAndOn(g: Graph, rank: Id -> nat, plain: ObjectPlan, hoisted: ObjectPlan)
    requires Ranked(g, rank)
  {
    && SameShape(plain, hoisted)
    && StepsIn(g, plain) && HoistedInIn(g, plain) && Unannotated(plain) && Populated(g, rank, plain)
    && StepsIn(g, hoisted) && HoistedInIn(g, hoisted) && Hoisted(g, rank, hoisted, {}, true) && Populated(g, rank, hoisted)
  }

  /** Over this nest of buckets both layouts yield the same columns at every layer. */
  ghost predicate SameRun<V(!new)>(g: Graph, sem: (Op, seq<V>) -> V, ex: Explode<V>, plain: ObjectPlan, hoisted: ObjectPlan, objs: seq<V>)
    requires ValidExplode(ex) && Runnable(g, plain) && Runnable(g, hoisted) && plain.hoistedOut == hoisted.hoistedOut == {}
  {
    RunPlan(g, sem, ex, [], plain, objs, map[]) == RunPlan(g, sem, ex, [], hoisted, objs, map[])
  }

  /** Hoisting changes where steps run and nothing a field yields: for every interpretation of the steps and every
      nest of buckets, the hoisted plan and the plain one yield the same columns at every layer, if the plan is seamless. */
  lemma HoistingKeepsMeaning<V(!new)>(g: Graph, rank: Id -> nat, sem: (Op, seq<V>) -> V, ex: Explode<V>,
                                      plain: ObjectPlan, hoisted: ObjectPlan, objs: seq<V>)
    requires Ranked(g, rank) && ValidExplode(ex) && OffAndOn(g, rank, plain, hoisted) && BoundedByFields(plain)
    requires SeamlessPlan(g, rank, plain, {}, Top(plain.parent))
    ensures Runnable(g, plain) && Runnable(g, hoisted) && SameRun(g, sem, ex, plain, hoisted, objs)
  {
    SeamlessWhenHoisted(g, rank, plain, hoisted, {}, true, Top(plain.parent));
    ShapeIsBoundedByFields(plain, hoisted);
    PlainRunIsMeaning(g, rank, sem, ex, plain, objs);
    HoistedRunIsMeaning(g, rank, sem, ex, hoisted, objs);
    MeaningOfShape(g, rank, sem, ex, [], plain, hoisted, objs);
  }

  /** A hoisted and populated plan yields what it means if it is seamless. */
  lemma HoistedRunIsMeaning<V(!new)>(g: Graph, rank: Id -> nat, sem: (Op, seq<V>) -> V, ex: Explode<V>, op: ObjectPlan, objs: seq<V>)
    requires Ranked(g, rank) && ValidExplode(ex) && StepsIn(g, op) && HoistedInIn(g, op) && Hoisted(g, rank, op, {}, true) && Populated(g, rank, op)
    requires BoundedByFields(op) && SeamlessTree(g, rank, op, Top(op.parent))
    ensures Runnable(g, op) && op.hoistedOut == {}
    ensures RunPlan(g, sem, ex, [], op, objs, map[]) == Meaning(g, rank, sem, ex, [], op, objs)
  {
    HoistedIsRunnable(g, rank, op, {}, true);
    RunIsMeaning(g, rank, sem, ex, [], op, Top(op.parent), objs, TopPlaces(objs), map[]);
  }

  /** Without hoisting a populated plan yields what it means. */
  lemma PlainRunIsMeaning<V(!new)>(g: Graph, rank: Id -> nat, sem: (Op, seq<V>) -> V, ex: Explode<V>, plain: ObjectPlan, objs: seq<V>)
    requires Ranked(g, rank) && ValidExplode(ex) && StepsIn(g, plain) && HoistedInIn(g, plain) && Unannotated(plain) && Populated(g, rank, plain)
    requires BoundedByFields(plain)
    ensures Runnable(g, plain)
    ensures RunPlan(g, sem, ex, [], plain, objs, map[]) == Meaning(g, rank, sem, ex, [], plain, objs)
  {
    PlainIsRunnable(g, rank, plain);
    PlainIsSeamless(g, rank, plain, Top(plain.parent));
    RunIsMeaning(g, rank, sem, ex, [], plain, Top(plain.parent), objs, TopPlaces(objs), map[]);
  }

  lemma {:induction false} PlainIsRunnable(g: Graph, rank: Id -> nat, op: ObjectPlan)
    requires Ranked(g, rank) && StepsIn(g, op) && HoistedInIn(g, op) && Unannotated(op) && Populated(g, rank, op)
    ensures Runnable(g, op)
    decreases op
  {
    var targets := Elements(Targets(op)) + Elements(op.hoistedIn);
    ScopesAreClosed(g, rank, Cut(op), targets);
    forall i | 0 <= i < |op.fields|
      ensures op.fields[i].step in op.ordered || op.fields[i].step in Cut(op)
    {
      assert Targets(op)[i] == op.fields[i].step;
      assert op.fields[i].step in targets;
    }
    forall i | HasChild(op, i) ensures Runnable(g, Child(op, i)) { PlainIsRunnable(g, rank, Child(op, i)); }
    forall i | HasChild(op, i) ensures Child(op, i).hoistedOut == {} { assert Unannotated(Child(op, i)); }
  }

  lemma {:induction false} PlainIsSeamless(g: Graph, rank: Id -> nat, op: ObjectPlan, chain: Chain)
    requires Ranked(g, rank) && StepsIn(g, op) && Unannotated(op) && chain.boundary == op.parent && (chain.Under? ==> chain.lifted == {})
    ensures SeamlessTree(g, rank, op, chain)
    decreases op
  {
    forall i | 0 <= i < |op.fields|
      ensures FieldIsSeamless(g, rank, op, chain, i)
    {
      assert Targets(op)[i] == op.fields[i].step && op.fields[i].step in Targets(op);
      assert Unlifted(chain) == chain;
      AgreesWithItself(g, rank, chain, op.fields[i].step);
    }
    forall i | HasChild(op, i)
      ensures SeamlessTree(g, rank, Child(op, i), ChildChain(op, chain, i))
    {
      PlainIsSeamless(g, rank, Child(op, i), ChildChain(op, chain, i));
    }
  }
}
