/** The bucket executor: every step once over the whole bucket, request-constant steps once and broadcast. */
module StepModel {
  import opened Sequences
  import opened StepGraph
  import opened Ordering

  /** A bucket's store: one column for each step that has been produced or seeded. */
  type Store<V> = map<Id, seq<V>>

  ghost predicate Columns<V>(store: Store<V>, n: nat)
  {
    forall s :: s in store ==> |store[s]| == n
  }

  /** The steps of `ordered` find every dependency seeded or produced before them. */
  ghost predicate CanRun(g: Graph, have: set<Id>, ordered: seq<Id>)
    decreases |ordered|
  {
    ordered != [] ==>
      && ordered[0] in g && (forall d :: d in g[ordered[0]].deps ==> d in have)
      && CanRun(g, have + {ordered[0]}, ordered[1..])
  }

  /** What an entrywise step returns for one entry, given its dependency columns. */
  function Entry<V>(g: Graph, sem: (Op, seq<V>) -> V, store: Store<V>, s: Id, i: nat): V
    requires s in g
    requires forall d :: d in g[s].deps ==> d in store && i < |store[d]|
  {
    sem(g[s].op, seq(|g[s].deps|, j requires 0 <= j < |g[s].deps| => assert g[s].deps[j] in g[s].deps; store[g[s].deps[j]][i]))
  }

  /** `execute(count, values)`: entry `i` from entry `i` of every dependency. */
  function Execute<V>(g: Graph, sem: (Op, seq<V>) -> V, store: Store<V>, s: Id, n: nat): (col: seq<V>)
    requires s in g
    requires forall d :: d in g[s].deps ==> d in store && n <= |store[d]|
    ensures |col| == n
  {
    seq(n, i requires 0 <= i < n => Entry(g, sem, store, s, i))
  }

  /** The reference: every step at full count, in order. */
  ghost function RunEach<V>(g: Graph, sem: (Op, seq<V>) -> V, n: nat, ordered: seq<Id>, store: Store<V>): (out: Store<V>)
    requires CanRun(g, store.Keys, ordered) && Columns(store, n)
    ensures out.Keys == store.Keys + Elements(ordered) && Columns(out, n)
    decreases |ordered|
  {
    if ordered == [] then store
    else
      var next := store[ordered[0] := Execute(g, sem, store, ordered[0], n)];
      assert next.Keys == store.Keys + {ordered[0]};
      assert Elements(ordered) == {ordered[0]} + Elements(ordered[1..]);
      RunEach(g, sem, n, ordered[1..], next)
  }

  /** `_bucket_unariness`: exactly the capable steps over dependencies that run once too, none of them seeded. */
  ghost predicate RunsOnce(g: Graph, count: nat, capable: set<Id>, seeded: set<Id>, unary: map<Id, bool>)
  {
    forall s :: s in unary ==>
      && s in g
      && (unary[s] <==> count > 0 && s in capable && forall d :: d in g[s].deps ==> d !in seeded && d in unary && unary[d])
  }

  method DependenciesRunOnce(g: Graph, step: Id, seeded: set<Id>, unary: map<Id, bool>) returns (eff: bool)
    requires step in g
    ensures eff <==> forall d :: d in g[step].deps ==> d !in seeded && d in unary && unary[d]
  {
    for j := 0 to |g[step].deps|
      invariant forall k :: 0 <= k < j ==> g[step].deps[k] !in seeded && g[step].deps[k] in unary && unary[g[step].deps[k]]
    {
      var d := g[step].deps[j];
      if d in seeded || !(d in unary && unary[d]) {
        assert d in g[step].deps;
        return false;
      }
    }
    return true;
  }

  lemma OneMoreVerdict(g: Graph, count: nat, capable: set<Id>, seeded: set<Id>, unary: map<Id, bool>, step: Id, eff: bool)
    requires RunsOnce(g, count, capable, seeded, unary) && step in g && step !in unary
    requires forall s :: s in unary ==> step !in g[s].deps
    requires step !in g[step].deps
    requires eff <==> count > 0 && step in capable && forall d :: d in g[step].deps ==> d !in seeded && d in unary && unary[d]
    ensures RunsOnce(g, count, capable, seeded, unary[step := eff])
  {
  }

  /** Which steps may run once here. */
  method BucketUnariness(g: Graph, ordered: seq<Id>, seeded: set<Id>, count: nat, capable: set<Id>)
    returns (unary: map<Id, bool>)
    requires Distinct(ordered) && DepsFirst(g, seeded, ordered) && forall s :: s in ordered ==> s in g && s !in seeded
    ensures unary.Keys == Elements(ordered) && RunsOnce(g, count, capable, seeded, unary)
  {
    unary := map[];
    if count <= 0 {
      unary := map s | s in ordered :: false;
      return;
    }
    for i := 0 to |ordered|
      invariant unary.Keys == Elements(ordered[..i]) && RunsOnce(g, count, capable, seeded, unary)
    {
      var step := ordered[i];
      ElementsOfPrefix(ordered, i);
      NotUsedEarlier(g, seeded, ordered, i);
      var eff := step in capable;
      if eff {
        eff := DependenciesRunOnce(g, step, seeded, unary);
      }
      OneMoreVerdict(g, count, capable, seeded, unary, step, eff);
      unary := unary[step := eff];
    }
    assert ordered[..|ordered|] == ordered;
  }

  lemma NotUsedEarlier(g: Graph, seeded: set<Id>, ordered: seq<Id>, i: nat)
    requires Distinct(ordered) && DepsFirst(g, seeded, ordered) && i < |ordered|
    requires forall s :: s in ordered ==> s in g && s !in seeded
    ensures forall s :: s in ordered[..i + 1] ==> s in g && ordered[i] !in g[s].deps
  {
    forall s | s in ordered[..i + 1]
      ensures s in g && ordered[i] !in g[s].deps
    {
      var j :| 0 <= j <= i && ordered[..i + 1][j] == s;
      assert ordered[j] == s && s in ordered;
      assert ordered[i] in ordered && ordered[i] !in ordered[..j];
    }
  }

  /** A dependencies-first list over the seeds can be run. */
  lemma {:induction false} DepsFirstCanRun(g: Graph, seeded: set<Id>, ordered: seq<Id>)
    requires DepsFirst(g, seeded, ordered) && forall s :: s in ordered ==> s in g
    ensures CanRun(g, seeded, ordered)
    decreases |ordered|
  {
    if ordered != [] {
      var more, rest := seeded + {ordered[0]}, ordered[1..];
      assert ordered[0] in ordered;
      assert ordered[..0] == [];
      forall i, d {:trigger d in g[rest[i]].deps} | 0 <= i < |rest| && rest[i] in g && d in g[rest[i]].deps
        ensures d in more || d in rest[..i]
      {
        assert rest[i] == ordered[i + 1];
        assert d in g[ordered[i + 1]].deps;
        assert ordered[..i + 1] == [ordered[0]] + rest[..i];
      }
      DepsFirstCanRun(g, more, rest);
    }
  }

  ghost predicate Constant<V>(column: seq<V>)
  {
    forall i :: 0 <= i < |column| ==> column[i] == column[0]
  }

  /** One representative entry stands for the whole column. */
  lemma OneEntryStandsForAll<V>(g: Graph, sem: (Op, seq<V>) -> V, store: Store<V>, s: Id, n: nat, one: Store<V>)
    requires s in g && 0 < n
    requires forall d :: d in g[s].deps ==> d in store && |store[d]| == n && Constant(store[d])
    requires forall d :: d in g[s].deps ==> d in one && one[d] == [store[d][0]]
    ensures forall i :: 0 <= i < n ==> Execute(g, sem, store, s, n)[i] == Execute(g, sem, one, s, 1)[0]
  {
    forall i | 0 <= i < n
      ensures Entry(g, sem, store, s, i) == Entry(g, sem, one, s, 0)
    {
      var a := seq(|g[s].deps|, j requires 0 <= j < |g[s].deps| => assert g[s].deps[j] in g[s].deps; store[g[s].deps[j]][i]);
      var b := seq(|g[s].deps|, j requires 0 <= j < |g[s].deps| => assert g[s].deps[j] in g[s].deps; one[g[s].deps[j]][0]);
      forall j | 0 <= j < |a| ensures a[j] == b[j] { assert g[s].deps[j] in g[s].deps; }
      assert a == b;
    }
  }

  /** `_gather_cols`: the dependency columns, cut down to their first entry for a step that runs once. */
  function GatherCols<V>(g: Graph, results: Store<V>, step: Id, unary: bool): (cols: Store<V>)
    requires step in g
    requires forall d :: d in g[step].deps ==> d in results && (unary ==> |results[d]| > 0)
  {
    map d | d in g[step].deps :: if unary then [results[d][0]] else results[d]
  }

  /** One step's call and `_store`: over one representative entry when it runs once, its single value broadcast. */
  method RunStep<V>(g: Graph, sem: (Op, seq<V>) -> V, count: nat, results: Store<V>, step: Id, unary: bool)
    returns (column: seq<V>)
    requires step in g && forall d :: d in g[step].deps ==> d in results && |results[d]| == count
    requires unary ==> count > 0 && forall d :: d in g[step].deps ==> Constant(results[d])
    ensures column == Execute(g, sem, results, step, count)
    ensures unary ==> Constant(column)
  {
    var stepCount := if unary then 1 else count;
    var cols := GatherCols(g, results, step, unary);
    var out := Execute(g, sem, cols, step, stepCount);
    if unary {
      column := seq(count, _ => out[0]);
      OneEntryStandsForAll(g, sem, results, step, count, cols);
    } else {
      column := out;
      forall i | 0 <= i < count
        ensures Entry(g, sem, cols, step, i) == Entry(g, sem, results, step, i)
      {
        assert seq(|g[step].deps|, j requires 0 <= j < |g[step].deps| => assert g[step].deps[j] in g[step].deps; cols[g[step].deps[j]][i])
            == seq(|g[step].deps|, j requires 0 <= j < |g[step].deps| => assert g[step].deps[j] in g[step].deps; results[g[step].deps[j]][i]);
      }
    }
  }

  lemma RunEachAdvances<V>(g: Graph, sem: (Op, seq<V>) -> V, n: nat, ordered: seq<Id>, i: nat, results: Store<V>, column: seq<V>)
    requires i < |ordered| && CanRun(g, results.Keys, ordered[i..]) && Columns(results, n)
    ensures ordered[i] in g && forall d :: d in g[ordered[i]].deps ==> d in results
    ensures column == Execute(g, sem, results, ordered[i], n) ==>
              var next := results[ordered[i] := column];
              && next.Keys == results.Keys + {ordered[i]}
              && CanRun(g, next.Keys, ordered[i + 1..]) && Columns(next, n)
              && RunEach(g, sem, n, ordered[i + 1..], next) == RunEach(g, sem, n, ordered[i..], results)
  {
    assert ordered[i..][0] == ordered[i] && ordered[i..][1..] == ordered[i + 1..];
    assert results[ordered[i] := column].Keys == results.Keys + {ordered[i]};
  }

  /** The store after `i` steps: those columns and the seeds, the run-once ones constant, the rest still runnable. */
  ghost predicate RunState<V>(g: Graph, count: nat, ordered: seq<Id>, i: nat, seeded: set<Id>, results: Store<V>, unaryHere: map<Id, bool>)
  {
    && i <= |ordered| && CanRun(g, results.Keys, ordered[i..]) && Columns(results, count)
    && results.Keys == seeded + Elements(ordered[..i])
    && forall s :: s in ordered[..i] && s in unaryHere && unaryHere[s] ==> Constant(results[s])
  }

  lemma RunOnceOverConstants<V>(g: Graph, count: nat, ordered: seq<Id>, i: nat, capable: set<Id>, seeded: set<Id>,
                                results: Store<V>, unaryHere: map<Id, bool>)
    requires RunState(g, count, ordered, i, seeded, results, unaryHere) && i < |ordered|
    requires unaryHere.Keys == Elements(ordered) && RunsOnce(g, count, capable, seeded, unaryHere)
    requires ordered[i] in g && forall d :: d in g[ordered[i]].deps ==> d in results
    ensures ordered[i] in unaryHere
    ensures unaryHere[ordered[i]] ==> count > 0 && forall d :: d in g[ordered[i]].deps ==> Constant(results[d])
  {
    assert ordered[i] in ordered;
  }

  lemma StateAdvances<V>(g: Graph, count: nat, ordered: seq<Id>, i: nat, seeded: set<Id>, results: Store<V>,
                         unaryHere: map<Id, bool>, column: seq<V>)
    requires RunState(g, count, ordered, i, seeded, results, unaryHere) && i < |ordered| && Distinct(ordered)
    requires var next := results[ordered[i] := column];
             next.Keys == results.Keys + {ordered[i]} && CanRun(g, next.Keys, ordered[i + 1..]) && Columns(next, count)
    requires ordered[i] in unaryHere && (unaryHere[ordered[i]] ==> Constant(column))
    ensures RunState(g, count, ordered, i + 1, seeded, results[ordered[i] := column], unaryHere)
  {
    ElementsOfPrefix(ordered, i);
  }

  method RunNext<V>(g: Graph, sem: (Op, seq<V>) -> V, count: nat, ordered: seq<Id>, i: nat, ghost capable: set<Id>, ghost seeded: set<Id>,
                    results: Store<V>, unaryHere: map<Id, bool>) returns (results': Store<V>)
    requires RunState(g, count, ordered, i, seeded, results, unaryHere) && i < |ordered|
    requires Distinct(ordered) && unaryHere.Keys == Elements(ordered) && RunsOnce(g, count, capable, seeded, unaryHere)
    ensures RunState(g, count, ordered, i + 1, seeded, results', unaryHere)
    ensures RunEach(g, sem, count, ordered[i + 1..], results') == RunEach(g, sem, count, ordered[i..], results)
  {
    var step := ordered[i];
    RunEachAdvances(g, sem, count, ordered, i, results, []);
    RunOnceOverConstants(g, count, ordered, i, capable, seeded, results, unaryHere);
    var column := RunStep(g, sem, count, results, step, unaryHere[step]);
    RunEachAdvances(g, sem, count, ordered, i, results, column);
    results' := results[step := column];
    StateAdvances(g, count, ordered, i, seeded, results, unaryHere, column);
  }

  /** `run_steps` on the synchronous path: one call a step, over one entry or over all of them. */
  method RunSteps<V>(g: Graph, sem: (Op, seq<V>) -> V, count: nat, ordered: seq<Id>, seed: Store<V>, capable: set<Id>)
    returns (results: Store<V>)
    requires Distinct(ordered) && DepsFirst(g, seed.Keys, ordered) && Columns(seed, count)
    requires forall s :: s in ordered ==> s in g && s !in seed
    ensures CanRun(g, seed.Keys, ordered) && results == RunEach(g, sem, count, ordered, seed)
  {
    DepsFirstCanRun(g, seed.Keys, ordered);
    results := seed;
    var unaryHere := BucketUnariness(g, ordered, seed.Keys, count, capable);
    for i := 0 to |ordered|
      invariant RunState(g, count, ordered, i, seed.Keys, results, unaryHere)
      invariant RunEach(g, sem, count, ordered[i..], results) == RunEach(g, sem, count, ordered, seed)
    {
      results := RunNext(g, sem, count, ordered, i, capable, seed.Keys, results, unaryHere);
    }
  }
}
