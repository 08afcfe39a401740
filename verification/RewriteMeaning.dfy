/** What the rewrites of the DAG mean: deduplication, the optimize pass and tree-shaking keep every
    step's value -- and exactly when deduplication keeps it inside a bucket. */
module RewriteMeaning {
  import opened StepGraph
  import opened Dag

  /** A map of steps that keeps operations and dependencies keeps values.  `within` is any set of steps
      closed under dependencies down to the seeded ones. */
  lemma {:induction false} ImagesAgree<V>(g: Graph, rank: Id -> nat, g': Graph, rank': Id -> nat, r: map<Id, Id>,
                                          sem: (Op, seq<V>) -> V, env: map<Id, V>, env': map<Id, V>,
                                          within: set<Id>, s: Id)
    requires Ranked(g, rank) && Ranked(g', rank') && within <= g.Keys && s in within
    requires forall x :: x in within ==> x in r && r[x] in g'
    requires forall x :: x in within && x in env ==> r[x] in env' && env'[r[x]] == env[x]
    requires forall x :: x in within && x !in env ==>
               r[x] !in env' && (forall d :: d in g[x].deps ==> d in within) && ImageOf(g, g', r, x)
    ensures Eval(g', rank', sem, env', r[s]) == Eval(g, rank, sem, env, s)
    decreases rank(s)
  {
    if s !in env {
      assert ImageOf(g, g', r, s);
      var args := seq(|g[s].deps|, i requires 0 <= i < |g[s].deps| => Eval(g, rank, sem, env, g[s].deps[i]));
      forall i | 0 <= i < |args|
        ensures args[i] == Eval(g', rank', sem, env', g'[r[s]].deps[i])
      {
        assert g[s].deps[i] in g[s].deps;
        ImagesAgree(g, rank, g', rank', r, sem, env, env', within, g[s].deps[i]);
      }
      EvalByDeps(g', rank', sem, env', r[s], args);
    }
  }

  /** Over the whole DAG, deduplication sends every step to a live step with its value. */
  lemma DedupKeepsValues<V>(g: Graph, rank: Id -> nat, g': Graph, rank': Id -> nat, r: map<Id, Id>,
                            sem: (Op, seq<V>) -> V, s: Id)
    requires Ranked(g, rank) && Ranked(g', rank') && Quotient(g, g', r) && s in g
    ensures r[s] in g' && Eval(g', rank', sem, map[], r[s]) == Eval(g, rank, sem, map[], s)
  {
    ImagesAgree(g, rank, g', rank', r, sem, map[], map[], g.Keys, s);
  }

  // ----- which steps deduplication merges -----

  /** Steps of the planned graph that do the same: one step, or two dedupable ones of one class and parameters whose
      dependencies are pairwise alike. */
  ghost predicate Alike(g: Graph, rank: Id -> nat, x: Id, y: Id)
    requires Ranked(g, rank) && x in g && y in g
    decreases rank(x)
  {
    x == y ||
    (g[x].op == g[y].op && g[x].op.dedupable && |g[x].deps| == |g[y].deps|
     && forall i :: 0 <= i < |g[x].deps| ==> AlikeAt(g, rank, x, y, i))
  }

  ghost predicate AlikeAt(g: Graph, rank: Id -> nat, x: Id, y: Id, i: nat)
    requires Ranked(g, rank) && x in g && y in g && i < |g[x].deps| == |g[y].deps|
    decreases rank(x), 0
  {
    assert g[x].deps[i] in g[x].deps && g[y].deps[i] in g[y].deps;
    Alike(g, rank, g[x].deps[i], g[y].deps[i])
  }

  /** Deduplication leaves no choice: dedupable steps of one operation whose dependencies were merged are merged. */
  lemma AlikeStepsMerge(g: Graph, g': Graph, r: map<Id, Id>, s: Id, t: Id)
    requires Quotient(g, g', r) && Merged(g') && s in g && t in g
    requires g[s].op == g[t].op && g[s].op.dedupable && MapIds(r, g[s].deps) == MapIds(r, g[t].deps)
    ensures r[s] == r[t]
  {
    assert ImageOf(g, g', r, s) && ImageOf(g, g', r, t);
  }

  /** It merges exactly the steps that are alike. */
  lemma {:induction false} MergedIffAlike(g: Graph, rank: Id -> nat, g': Graph, r: map<Id, Id>, x: Id, y: Id)
    requires Ranked(g, rank) && Quotient(g, g', r) && Merged(g') && x in g && y in g
    ensures r[x] == r[y] <==> Alike(g, rank, x, y)
    decreases rank(x)
  {
    assert ImageOf(g, g', r, x) && ImageOf(g, g', r, y);
    if |g[x].deps| == |g[y].deps| {
      forall i | 0 <= i < |g[x].deps|
        ensures AlikeAt(g, rank, x, y, i) <==> MapIds(r, g[x].deps)[i] == MapIds(r, g[y].deps)[i]
      {
        assert g[x].deps[i] in g[x].deps && g[y].deps[i] in g[y].deps;
        MergedIffAlike(g, rank, g', r, g[x].deps[i], g[y].deps[i]);
      }
    }
    if Alike(g, rank, x, y) && x != y {
      assert MapIds(r, g[x].deps) == MapIds(r, g[y].deps);
      AlikeStepsMerge(g, g', r, x, y);
    }
  }

  /** Inside the bucket bounded by `p` the merged plan reads `r[p]` as that bucket's own object.  `s` keeps its
      meaning there when nothing it computes from, other than the boundary itself, is alike to the boundary. */
  ghost predicate BoundaryStaysApart(g: Graph, rank: Id -> nat, p: Id, s: Id)
    requires Ranked(g, rank) && s in g && p in g
  {
    forall x :: x in Scope(g, rank, {p}, s) ==> !Alike(g, rank, x, p)
  }

  /** The same of what was merged. */
  ghost predicate NoneMerged(g: Graph, rank: Id -> nat, r: map<Id, Id>, p: Id, s: Id)
    requires Ranked(g, rank) && s in g && r.Keys == g.Keys && p in g
  {
    forall x :: x in Scope(g, rank, {p}, s) ==> r[x] != r[p]
  }

  lemma DedupKeepsBucketValues<V>(g: Graph, rank: Id -> nat, g': Graph, rank': Id -> nat, r: map<Id, Id>,
                                  sem: (Op, seq<V>) -> V, p: Id, o: V, s: Id)
    requires Ranked(g, rank) && Ranked(g', rank') && Quotient(g, g', r) && s in g && p in g
    requires NoneMerged(g, rank, r, p, s)
    ensures Eval(g', rank', sem, map[r[p] := o], r[s]) == Eval(g, rank, sem, map[p := o], s)
  {
    ScopeIsClosed(g, rank, {p}, s);
    var within := Scope(g, rank, {p}, s) + {p};
    assert s in within by { if s != p { assert s in Scope(g, rank, {p}, s); } }
    forall x | x in within && x != p
      ensures forall d :: d in g[x].deps ==> d in within
      ensures ImageOf(g, g', r, x)
    {
    }
    ImagesAgree(g, rank, g', rank', r, sem, map[p := o], map[r[p] := o], within, s);
  }

  // ----- exactness, in the algebra of terms -----

  /** The free values: an object given to a bucket, or an operation applied to values. */
  datatype Term = Obj(n: int) | App(op: Op, args: seq<Term>)

  function Free(): (Op, seq<Term>) -> Term
  {
    (op, args) => App(op, args)
  }

  /** What a step is computed from is sent to what its image is computed from. */
  lemma {:induction false} ImagesDescend(g: Graph, rank: Id -> nat, g': Graph, rank': Id -> nat, r: map<Id, Id>, s: Id, x: Id)
    requires Ranked(g, rank) && Ranked(g', rank') && Quotient(g, g', r) && s in g && x in Scope(g, rank, {}, s) && x != s
    ensures rank'(r[x]) < rank'(r[s])
    decreases rank(s)
  {
    assert ImageOf(g, g', r, s);
    var d :| d in g[s].deps && x in Scope(g, rank, {}, d);
    var i :| 0 <= i < |g[s].deps| && g[s].deps[i] == d;
    assert MapIds(r, g[s].deps)[i] == r[d] && r[d] in g'[r[s]].deps;
    if x != d { ImagesDescend(g, rank, g', rank', r, d, x); }
  }

  /** A step merged with the boundary is computed without it, so it has the value the boundary has on its own. */
  lemma MergedIsComputedAlone<V>(g: Graph, rank: Id -> nat, g': Graph, rank': Id -> nat, r: map<Id, Id>,
                                 sem: (Op, seq<V>) -> V, p: Id, o: V, x: Id)
    requires Ranked(g, rank) && Ranked(g', rank') && Quotient(g, g', r) && x in g && p in g && x != p && r[x] == r[p]
    ensures Eval(g, rank, sem, map[p := o], x) == Eval(g, rank, sem, map[], p)
  {
    if p in Scope(g, rank, {}, x) { ImagesDescend(g, rank, g', rank', r, x, p); }
    EvalAgrees(g, rank, sem, map[p := o], map[], x);
    DedupKeepsValues(g, rank, g', rank', r, sem, x);
    DedupKeepsValues(g, rank, g', rank', r, sem, p);
  }

  /** If some step of the bucket was merged with its boundary, the merged plan computes something else, unless the
      bucket's object is what the boundary computes on its own. */
  lemma {:induction false} MergedBoundaryIsSeen(g: Graph, rank: Id -> nat, g': Graph, rank': Id -> nat, r: map<Id, Id>,
                                                p: Id, o: Term, s: Id)
    requires Ranked(g, rank) && Ranked(g', rank') && Quotient(g, g', r) && s in g && p in g
    requires !NoneMerged(g, rank, r, p, s)
    requires Eval(g', rank', Free(), map[r[p] := o], r[s]) == Eval(g, rank, Free(), map[p := o], s)
    ensures o == Eval(g, rank, Free(), map[], p)
    decreases rank(s)
  {
    var x :| x in Scope(g, rank, {p}, s) && r[x] == r[p];
    assert s != p;
    if r[s] == r[p] {
      MergedIsComputedAlone(g, rank, g', rank', r, Free(), p, o, s);
    } else {
      assert ImageOf(g, g', r, s);
      var d :| d in g[s].deps && x in Scope(g, rank, {p}, d);
      var i :| 0 <= i < |g[s].deps| && g[s].deps[i] == d;
      var left := Eval(g', rank', Free(), map[r[p] := o], r[s]);
      var right := Eval(g, rank, Free(), map[p := o], s);
      assert left.args[i] == Eval(g', rank', Free(), map[r[p] := o], r[d]);
      assert right.args[i] == Eval(g, rank, Free(), map[p := o], d);
      MergedBoundaryIsSeen(g, rank, g', rank', r, p, o, d);
    }
  }

  /** Where the bucket's object is what its boundary computes on its own, no merge is felt. */
  lemma DedupKeepsComputedBoundary<V>(g: Graph, rank: Id -> nat, g': Graph, rank': Id -> nat, r: map<Id, Id>,
                                      sem: (Op, seq<V>) -> V, p: Id, o: V, s: Id)
    requires Ranked(g, rank) && Ranked(g', rank') && Quotient(g, g', r) && s in g && p in g
    requires o == Eval(g, rank, sem, map[], p)
    ensures Eval(g', rank', sem, map[r[p] := o], r[s]) == Eval(g, rank, sem, map[p := o], s)
  {
    DedupKeepsValues(g, rank, g', rank', r, sem, s);
    DedupKeepsValues(g, rank, g', rank', r, sem, p);
    EvalSeeded(g, rank, sem, map[], map[p := o], s);
    EvalSeeded(g', rank', sem, map[], map[r[p] := o], r[s]);
  }

  /** In the bucket bounded by `p`, at an object `o`, deduplication keeps what `s` means exactly when the boundary stays
      apart or `o` is what the boundary computes from no object at all. */
  lemma DedupKeepsBucketValueIff(g: Graph, rank: Id -> nat, g': Graph, rank': Id -> nat, r: map<Id, Id>, p: Id, o: Term, s: Id)
    requires Ranked(g, rank) && Ranked(g', rank') && Quotient(g, g', r) && Merged(g') && s in g && p in g
    ensures Eval(g', rank', Free(), map[r[p] := o], r[s]) == Eval(g, rank, Free(), map[p := o], s)
       <==> (BoundaryStaysApart(g, rank, p, s) || o == Eval(g, rank, Free(), map[], p))
  {
    ApartIffNoneMerged(g, rank, g', r, p, s);
    if BoundaryStaysApart(g, rank, p, s) {
      DedupKeepsBucketValues(g, rank, g', rank', r, Free(), p, o, s);
    } else if o == Eval(g, rank, Free(), map[], p) {
      DedupKeepsComputedBoundary(g, rank, g', rank', r, Free(), p, o, s);
    } else if Eval(g', rank', Free(), map[r[p] := o], r[s]) == Eval(g, rank, Free(), map[p := o], s) {
      MergedBoundaryIsSeen(g, rank, g', rank', r, p, o, s);
    }
  }

  /** Where the objects are a list's items, which may be anything: exactly when the boundary stays apart, which the planned
      graph decides. */
  lemma DedupKeepsBucketValuesIff(g: Graph, rank: Id -> nat, g': Graph, rank': Id -> nat, r: map<Id, Id>, p: Id, s: Id)
    requires Ranked(g, rank) && Ranked(g', rank') && Quotient(g, g', r) && Merged(g') && s in g && p in g
    ensures (forall o: Term :: Eval(g', rank', Free(), map[r[p] := o], r[s]) == Eval(g, rank, Free(), map[p := o], s))
       <==> BoundaryStaysApart(g, rank, p, s)
  {
    if BoundaryStaysApart(g, rank, p, s) {
      forall o: Term { DedupKeepsBucketValueIff(g, rank, g', rank', r, p, o, s); }
    } else {
      DedupKeepsBucketValueIff(g, rank, g', rank', r, p, Obj(0), s);
      assert Eval(g', rank', Free(), map[r[p] := Obj(0)], r[s]) != Eval(g, rank, Free(), map[p := Obj(0)], s);
    }
  }

  lemma ApartIffNoneMerged(g: Graph, rank: Id -> nat, g': Graph, r: map<Id, Id>, p: Id, s: Id)
    requires Ranked(g, rank) && Quotient(g, g', r) && Merged(g') && s in g && p in g
    ensures BoundaryStaysApart(g, rank, p, s) <==> NoneMerged(g, rank, r, p, s)
  {
    forall x | x in Scope(g, rank, {p}, s) { MergedIffAlike(g, rank, g', r, x, p); }
  }

  /** A plan that loads one list twice: at the top, where it bounds the child's bucket (1), and again inside that
      bucket (3), where the step 4 reads it. */
  ghost predicate LoadsItsOwnListAgain(g: Graph)
  {
    && Id(0) in g && Id(1) in g && Id(2) in g && Id(3) in g && Id(4) in g
    && g[Id(0)].op == g[Id(2)].op && g[Id(1)].op == g[Id(3)].op && g[Id(0)].op.dedupable && g[Id(1)].op.dedupable
    && g[Id(0)].deps == g[Id(2)].deps == [] && g[Id(1)].deps == [Id(0)] && g[Id(3)].deps == [Id(2)] && g[Id(4)].deps == [Id(3)]
  }

  /** Deduplication changes what step 4 means inside the bucket bounded by step 1: the list it reads becomes the
      bucket's own object. */
  lemma DedupOverItsOwnListBreaks(g: Graph, rank: Id -> nat, g': Graph, rank': Id -> nat, r: map<Id, Id>)
    requires LoadsItsOwnListAgain(g) && Ranked(g, rank) && Ranked(g', rank') && Quotient(g, g', r) && Merged(g')
    ensures !forall o: Term :: Eval(g', rank', Free(), map[r[Id(1)] := o], r[Id(4)]) == Eval(g, rank, Free(), map[Id(1) := o], Id(4))
  {
    assert AlikeAt(g, rank, Id(3), Id(1), 0) by { assert Alike(g, rank, Id(2), Id(0)); }
    assert Alike(g, rank, Id(3), Id(1));
    assert Id(3) in g[Id(4)].deps && Id(3) in Scope(g, rank, {Id(1)}, Id(3));
    DedupKeepsBucketValuesIff(g, rank, g', rank', r, Id(1), Id(4));
  }

  // ----- optimize, tree-shake, and the three passes in a row -----

  /** The value of a step of an acyclic graph, whatever the rank that shows it acyclic. */
  ghost function Denote<V>(g: Graph, sem: (Op, seq<V>) -> V, s: Id): V
    requires Acyclic(g) && s in g
  {
    var rank: Id -> nat :| Ranked(g, rank);
    Eval(g, rank, sem, map[], s)
  }

  /** A part of a graph that holds its own dependencies gives its steps the same values. */
  lemma PartKeepsValues<V>(g: Graph, part: Graph, sem: (Op, seq<V>) -> V, s: Id)
    requires Acyclic(g) && s in part
    requires forall x :: x in part ==> x in g && part[x] == g[x]
    requires forall x, d :: x in part && d in part[x].deps ==> d in part
    ensures Acyclic(part) && Denote(part, sem, s) == Denote(g, sem, s)
  {
    var rank: Id -> nat :| Ranked(g, rank) && Denote(g, sem, s) == Eval(g, rank, sem, map[], s);
    assert Ranked(part, rank);
    var rank': Id -> nat :| Ranked(part, rank') && Denote(part, sem, s) == Eval(part, rank', sem, map[], s);
    var r := Identity(part);
    forall x | x in part
      ensures ImageOf(part, g, r, x)
    {
      forall i | 0 <= i < |part[x].deps| ensures r[part[x].deps[i]] == part[x].deps[i] { assert part[x].deps[i] in part[x].deps; }
      assert MapIds(r, part[x].deps) == part[x].deps;
    }
    ImagesAgree(part, rank', g, rank, r, sem, map[], map[], part.Keys, s);
  }

  lemma DenoteIsEval<V>(g: Graph, rank: Id -> nat, sem: (Op, seq<V>) -> V, s: Id)
    requires Ranked(g, rank) && s in g
    ensures Denote(g, sem, s) == Eval(g, rank, sem, map[], s)
  {
    var rank': Id -> nat :| Ranked(g, rank') && Denote(g, sem, s) == Eval(g, rank', sem, map[], s);
    var r := Identity(g);
    forall x | x in g
      ensures ImageOf(g, g, r, x)
    {
      forall i | 0 <= i < |g[x].deps| ensures r[g[x].deps[i]] == g[x].deps[i] { assert g[x].deps[i] in g[x].deps; }
      assert MapIds(r, g[x].deps) == g[x].deps;
    }
    ImagesAgree(g, rank, g, rank', r, sem, map[], map[], g.Keys, s);
  }

  /** Repointing references to a step with the same value changes no value. */
  lemma {:induction false} RepointedKeepsValues<V>(g: Graph, rank: Id -> nat, g': Graph, rank': Id -> nat, dead: set<Id>,
                                                   gone: Id, survivor: Id, sem: (Op, seq<V>) -> V, s: Id)
    requires Ranked(g, rank) && g' == Repointed(g, dead, gone, survivor) && Ranked(g', rank')
    requires gone in g && survivor in g && s in g
    requires Eval(g, rank, sem, map[], gone) == Eval(g, rank, sem, map[], survivor)
    ensures Eval(g', rank', sem, map[], s) == Eval(g, rank, sem, map[], s)
    decreases rank'(s)
  {
    var args := seq(|g[s].deps|, i requires 0 <= i < |g[s].deps| => Eval(g, rank, sem, map[], g[s].deps[i]));
    forall i | 0 <= i < |args|
      ensures args[i] == Eval(g', rank', sem, map[], g'[s].deps[i])
    {
      assert g'[s].deps[i] in g'[s].deps;
      RepointedKeepsValues(g, rank, g', rank', dead, gone, survivor, sem, g'[s].deps[i]);
    }
    EvalByDeps(g', rank', sem, map[], s, args);
  }

  /** Every replacement of the script puts a step of equal value in place of the one it removes. */
  ghost predicate ValuePreserving<V>(now: Snapshot, sem: (Op, seq<V>) -> V, script: seq<Rewrite>)
    decreases |script|
  {
    script == [] ||
    var w := script[0];
    && Allowed(now, w)
    && Acyclic(Registered(now, w))
    && Denote(Registered(now, w), sem, Survivor(w, now.count)) == Denote(Registered(now, w), sem, w.gone)
    && ValuePreserving(Rewritten(now, w), sem, script[1..])
  }

  /** Registering a step changes no value. */
  lemma RegisteringKeepsValue<V>(now: Snapshot, sem: (Op, seq<V>) -> V, w: Rewrite, s: Id)
    requires Acyclic(now.nodes) && Allowed(now, w) && s in now.nodes && Acyclic(Registered(now, w))
    ensures Denote(Registered(now, w), sem, s) == Denote(now.nodes, sem, s)
  {
    OldDependenciesAreOld(now.nodes);
    PartKeepsValues(Registered(now, w), now.nodes, sem, s);
  }

  /** Eradicating a step in favour of one of equal value changes no value. */
  lemma EradicatingKeepsValue<V>(g: Graph, dead: set<Id>, gone: Id, survivor: Id, sem: (Op, seq<V>) -> V, s: Id)
    requires Acyclic(g) && gone in g && Independent(g, survivor, gone) && s in g
    requires Denote(g, sem, survivor) == Denote(g, sem, gone)
    ensures Acyclic(Repointed(g, dead, gone, survivor)) && Denote(Repointed(g, dead, gone, survivor), sem, s) == Denote(g, sem, s)
  {
    RepointedIsAcyclic(g, dead, gone, survivor);
    var end := Repointed(g, dead, gone, survivor);
    var rank: Id -> nat :| Ranked(g, rank);
    var rank': Id -> nat :| Ranked(end, rank');
    DenoteIsEval(g, rank, sem, survivor);
    DenoteIsEval(g, rank, sem, gone);
    RepointedKeepsValues(g, rank, end, rank', dead, gone, survivor, sem, s);
    DenoteIsEval(g, rank, sem, s);
    DenoteIsEval(end, rank', sem, s);
  }

  lemma RewriteKeepsValue<V>(now: Snapshot, sem: (Op, seq<V>) -> V, w: Rewrite, s: Id)
    requires Acyclic(now.nodes) && Allowed(now, w) && s in now.nodes
    requires Acyclic(Registered(now, w))
    requires Denote(Registered(now, w), sem, Survivor(w, now.count)) == Denote(Registered(now, w), sem, w.gone)
    ensures Acyclic(Rewritten(now, w).nodes) && s in Rewritten(now, w).nodes
    ensures Denote(Rewritten(now, w).nodes, sem, s) == Denote(now.nodes, sem, s)
    ensures Denote(Rewritten(now, w).nodes, sem, Survivor(w, now.count)) == Denote(now.nodes, sem, w.gone)
  {
    var to := Survivor(w, now.count);
    EradicatingKeepsValue(Registered(now, w), now.dead + {w.gone}, w.gone, to, sem, s);
    EradicatingKeepsValue(Registered(now, w), now.dead + {w.gone}, w.gone, to, sem, to);
    RegisteringKeepsValue(now, sem, w, s);
    RegisteringKeepsValue(now, sem, w, w.gone);
  }

  lemma OldDependenciesAreOld(g: Graph)
    requires Acyclic(g)
    ensures forall x, d :: x in g && d in g[x].deps ==> d in g
  {
  }

  /** One replacement moves each image to the survivor or leaves it. */
  lemma ImagesMoveOn(now: Snapshot, r: map<Id, Id>, w: Rewrite, s: Id)
    requires Allowed(now, w) && r.Keys == now.nodes.Keys && s in r
    ensures var r' := Redirected(WithFresh(r, w, Survivor(w, now.count)), w.gone, Survivor(w, now.count));
            && r'.Keys == Rewritten(now, w).nodes.Keys && s in r' && r'[s] == if r[s] == w.gone then Survivor(w, now.count) else r[s]
  {
    RepointedKeys(Registered(now, w), now.dead + {w.gone}, w.gone, Survivor(w, now.count));
  }

  /** The optimize pass keeps values: each step present at the start has its value at the step the remap names. */
  lemma {:induction false} OptimizeKeepsValues<V>(g: Graph, now: Snapshot, r: map<Id, Id>, sem: (Op, seq<V>) -> V, script: seq<Rewrite>, s: Id)
    requires Acyclic(g) && Acyclic(now.nodes) && ValuePreserving(now, sem, script)
    requires s in g && s in r && r[s] in now.nodes && r.Keys == now.nodes.Keys
    requires Denote(now.nodes, sem, r[s]) == Denote(g, sem, s)
    ensures var end := After(now, script);
            var r' := Images(now, r, script);
            Acyclic(end.nodes) && s in r' && r'[s] in end.nodes && Denote(end.nodes, sem, r'[s]) == Denote(g, sem, s)
    decreases |script|
  {
    if script != [] {
      var w := script[0];
      var r' := Redirected(WithFresh(r, w, Survivor(w, now.count)), w.gone, Survivor(w, now.count));
      ImagesMoveOn(now, r, w, s);
      RewriteKeepsValue(now, sem, w, r[s]);
      OptimizeKeepsValues(g, Rewritten(now, w), r', sem, script[1..], s);
    }
  }

  /** `finalize_plan`'s three passes in a row: a step that is still needed has, at the step the composed remap
      names, the value it was planned with. */
  lemma FinalizeKeepsValues<V>(start: Snapshot, sem: (Op, seq<V>) -> V, script: seq<Rewrite>,
                               sent: map<Id, Id>, live: Graph, merged: Graph, fold: map<Id, Id>, keep: set<Id>, s: Id)
    requires Acyclic(start.nodes) && ValuePreserving(start, sem, script) && s in start.nodes
    requires sent == Images(start, Identity(start.nodes), script)
    requires live == LiveOf(After(start, script).nodes, After(start, script).dead)
    requires forall x, d :: x in live && d in live[x].deps ==> d in live
    requires s in sent && sent[s] in live
    requires Quotient(live, merged, fold) && Acyclic(merged)
    requires keep <= merged.Keys && ClosedUpTo(merged, {}, keep) && fold[sent[s]] in keep
    ensures Acyclic(Restricted(merged, keep))
    ensures Denote(Restricted(merged, keep), sem, fold[sent[s]]) == Denote(start.nodes, sem, s)
  {
    OptimizeKeepsValues(start.nodes, start, Identity(start.nodes), sem, script, s);
    PartKeepsValues(After(start, script).nodes, live, sem, sent[s]);
    MergedKeepsValue(live, merged, fold, sem, sent[s]);
    TrimKeepsValue(merged, keep, sem, fold[sent[s]]);
  }

  lemma TrimKeepsValue<V>(g: Graph, keep: set<Id>, sem: (Op, seq<V>) -> V, s: Id)
    requires Acyclic(g) && keep <= g.Keys && ClosedUpTo(g, {}, keep) && s in keep
    ensures Acyclic(Restricted(g, keep)) && Denote(Restricted(g, keep), sem, s) == Denote(g, sem, s)
  {
    PartKeepsValues(g, Restricted(g, keep), sem, s);
  }

  lemma MergedKeepsValue<V>(live: Graph, merged: Graph, fold: map<Id, Id>, sem: (Op, seq<V>) -> V, s: Id)
    requires Quotient(live, merged, fold) && Acyclic(live) && Acyclic(merged) && s in live
    ensures fold[s] in merged && Denote(merged, sem, fold[s]) == Denote(live, sem, s)
  {
    var rank: Id -> nat :| Ranked(live, rank);
    var rank': Id -> nat :| Ranked(merged, rank');
    DedupKeepsValues(live, rank, merged, rank', fold, sem, s);
    DenoteIsEval(live, rank, sem, s);
    DenoteIsEval(merged, rank', sem, fold[s]);
  }
}
