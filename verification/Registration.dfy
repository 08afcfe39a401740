/** Registering a step together with everything it depends on: each step object once, however often it is shared. */
module Registration {
  import opened Sequences
  import opened StepGraph
  import opened Dag
  import opened RewriteMeaning

  /** What registering adds to a plan.  `drafts` are the step objects, each under a name of its own; `seen` says under which
      id each is known.  The objects of `joined`, and no others, came in: each under an id of its own, over the ids of
      its dependencies, and all else is as it was. */
  ghost predicate Grown(drafts: Graph, was: Graph, seen: map<Id, Id>, now: Graph, seen': map<Id, Id>, joined: set<Id>)
  {
    && joined <= drafts.Keys && joined !! seen.Keys && seen'.Keys == seen.Keys + joined
    && (forall x :: x in seen ==> seen'[x] == seen[x])
    && (forall s :: s in was ==> s in now && now[s] == was[s])
    && (forall x :: x in joined ==> DraftJoined(drafts, was, now, seen', x))
    && (forall x, y :: x in joined && y in joined && seen'[x] == seen'[y] ==> x == y)
    && (forall s :: s in now && s !in was ==> s in ImagesOf(seen', joined))
  }

  ghost predicate DraftJoined(drafts: Graph, was: Graph, now: Graph, seen': map<Id, Id>, x: Id)
  {
    && x in drafts && x in seen' && (forall d :: d in drafts[x].deps ==> d in seen')
    && seen'[x] !in was && ImageOf(drafts, now, seen', x)
  }

  ghost function ImagesOf(seen: map<Id, Id>, joined: set<Id>): set<Id>
  {
    set x | x in joined && x in seen :: seen[x]
  }

  lemma NothingGrown(drafts: Graph, was: Graph, seen: map<Id, Id>)
    ensures Grown(drafts, was, seen, was, seen, {})
  {
  }

  lemma StillJoined(drafts: Graph, was: Graph, mid: Graph, seen: map<Id, Id>, now: Graph, seen': map<Id, Id>, x: Id)
    requires DraftJoined(drafts, was, mid, seen, x)
    requires (forall y :: y in seen ==> y in seen' && seen'[y] == seen[y]) && forall s :: s in mid ==> s in now && now[s] == mid[s]
    ensures DraftJoined(drafts, was, now, seen', x)
  {
    assert MapIds(seen, drafts[x].deps) == MapIds(seen', drafts[x].deps);
  }

  /** Objects that came in one after the other have ids of their own, and the two lots are all that came in. */
  lemma GrownApart(drafts: Graph, was: Graph, seen: map<Id, Id>, mid: Graph, seenMid: map<Id, Id>, first: set<Id>,
                   now: Graph, seen': map<Id, Id>, second: set<Id>)
    requires Grown(drafts, was, seen, mid, seenMid, first) && Grown(drafts, mid, seenMid, now, seen', second)
    ensures forall x, y :: x in first + second && y in first + second && seen'[x] == seen'[y] ==> x == y
    ensures forall s :: s in now && s !in was ==> s in ImagesOf(seen', first + second)
  {
    forall x | x in first ensures seen'[x] == seenMid[x] && seen'[x] in mid { assert DraftJoined(drafts, was, mid, seenMid, x); }
    forall x | x in second ensures seen'[x] !in mid { assert DraftJoined(drafts, mid, now, seen', x); }
    forall s | s in now && s !in was
      ensures s in ImagesOf(seen', first + second)
    {
      if s in mid {
        var x :| x in first && x in seenMid && seenMid[x] == s;
      } else {
        var x :| x in second && x in seen' && seen'[x] == s;
      }
    }
  }

  /** Growth in two steps is growth. */
  lemma GrownOn(drafts: Graph, was: Graph, seen: map<Id, Id>, mid: Graph, seenMid: map<Id, Id>, first: set<Id>,
                now: Graph, seen': map<Id, Id>, second: set<Id>)
    requires Grown(drafts, was, seen, mid, seenMid, first) && Grown(drafts, mid, seenMid, now, seen', second)
    ensures Grown(drafts, was, seen, now, seen', first + second)
  {
    forall x | x in first ensures DraftJoined(drafts, was, now, seen', x) {
      assert DraftJoined(drafts, was, mid, seenMid, x);
      StillJoined(drafts, was, mid, seenMid, now, seen', x);
    }
    forall x | x in second ensures DraftJoined(drafts, was, now, seen', x) { assert DraftJoined(drafts, mid, now, seen', x); }
    GrownApart(drafts, was, seen, mid, seenMid, first, now, seen', second);
  }

  lemma OneGrown(drafts: Graph, was: Graph, seen: map<Id, Id>, h: Id, id: Id)
    requires h in drafts && h !in seen && id !in was && (forall d :: d in drafts[h].deps ==> d in seen)
    ensures var deps := MapIds(seen, drafts[h].deps); Grown(drafts, was, seen, was[id := Node(drafts[h].op, deps)], seen[h := id], {h})
  {
    assert MapIds(seen, drafts[h].deps) == MapIds(seen[h := id], drafts[h].deps);
    assert id in ImagesOf(seen[h := id], {h}) by { assert h in {h}; }
  }

  /** `_register`: a step object met before is left alone; otherwise its dependencies come first, then itself. */
  method Register(p: Plan, drafts: Graph, ghost rank: Id -> nat, seen: map<Id, Id>, h: Id) returns (seen': map<Id, Id>, ghost joined: set<Id>)
    requires p.Valid() && p.Unswept() && Ranked(drafts, rank) && h in drafts && forall x :: x in seen ==> seen[x] in p.Live()
    modifies p
    ensures p.Valid() && p.Unswept() && p.dead == old(p.dead) && forall x :: x in seen' ==> seen'[x] in p.Live()
    ensures h in seen' && Grown(drafts, old(p.nodes), seen, p.nodes, seen', joined) && joined <= Scope(drafts, rank, seen.Keys, h)
    decreases rank(h), 1
  {
    seen', joined := seen, {};
    NothingGrown(drafts, p.nodes, seen);
    if h !in seen {
      seen', joined := RegisterDependencies(p, drafts, rank, seen, h);
      ghost var mid, seenMid := p.nodes, seen';
      assert MapsInto(seen', drafts[h].deps, p.Live());
      var id := p.AddStep(drafts[h].op, MapIds(seen', drafts[h].deps));
      OneGrown(drafts, mid, seen', h, id);
      GrownOn(drafts, old(p.nodes), seen, mid, seen', joined, p.nodes, seen'[h := id], {h});
      seen', joined := seen'[h := id], joined + {h};
      assert h in Scope(drafts, rank, seen.Keys, h);
    }
  }

  ghost predicate MapsInto(seen: map<Id, Id>, deps: seq<Id>, live: Graph)
    requires forall d :: d in deps ==> d in seen
  {
    forall i :: 0 <= i < |deps| ==> MapIds(seen, deps)[i] in live
  }

  method RegisterDependencies(p: Plan, drafts: Graph, ghost rank: Id -> nat, seen: map<Id, Id>, h: Id) returns (seen': map<Id, Id>, ghost joined: set<Id>)
    requires p.Valid() && p.Unswept() && Ranked(drafts, rank) && h in drafts && h !in seen && forall x :: x in seen ==> seen[x] in p.Live()
    modifies p
    ensures p.Valid() && p.Unswept() && p.dead == old(p.dead) && forall x :: x in seen' ==> seen'[x] in p.Live()
    ensures (forall d :: d in drafts[h].deps ==> d in seen') && h !in seen'
    ensures Grown(drafts, old(p.nodes), seen, p.nodes, seen', joined) && joined <= Scope(drafts, rank, seen.Keys, h)
    decreases rank(h), 0, 1
  {
    seen', joined := seen, {};
    NothingGrown(drafts, p.nodes, seen);
    var deps := drafts[h].deps;
    for i := 0 to |deps|
      invariant p.Valid() && p.Unswept() && p.dead == old(p.dead) && Underway(p, drafts, rank, old(p.nodes), seen, seen', joined, h)
      invariant Known(deps, i, seen')
    {
      ghost var soFar, more := seen', {};
      seen', more := RegisterDependency(p, drafts, rank, old(p.nodes), seen, seen', joined, h, deps[i]);
      joined := joined + more;
      KnownGrows(deps, i, soFar, seen');
    }
    assert forall d :: d in deps ==> d in seen';
  }

  ghost predicate Known(deps: seq<Id>, i: nat, seen: map<Id, Id>)
    requires i <= |deps|
  {
    forall j :: 0 <= j < i ==> deps[j] in seen
  }

  lemma KnownGrows(deps: seq<Id>, i: nat, soFar: map<Id, Id>, seen: map<Id, Id>)
    requires i < |deps| && Known(deps, i, soFar) && (forall x :: x in soFar ==> x in seen) && deps[i] in seen
    ensures Known(deps, i + 1, seen)
  {
  }

  /** While the dependencies of `h` are being registered. */
  ghost predicate Underway(p: Plan, drafts: Graph, rank: Id -> nat, was: Graph, seen: map<Id, Id>, seen': map<Id, Id>, joined: set<Id>, h: Id)
    requires Ranked(drafts, rank) && h in drafts
    reads p
  {
    && Grown(drafts, was, seen, p.nodes, seen', joined) && h !in joined && joined <= Scope(drafts, rank, seen.Keys, h)
    && forall x :: x in seen' ==> seen'[x] in p.Live()
  }

  method RegisterDependency(p: Plan, drafts: Graph, ghost rank: Id -> nat, ghost was: Graph, ghost seen: map<Id, Id>, soFar: map<Id, Id>,
                            ghost joined: set<Id>, h: Id, d: Id) returns (seen': map<Id, Id>, ghost more: set<Id>)
    requires p.Valid() && p.Unswept() && Ranked(drafts, rank) && h in drafts && h !in seen && d in drafts[h].deps
    requires Underway(p, drafts, rank, was, seen, soFar, joined, h)
    modifies p
    ensures p.Valid() && p.Unswept() && p.dead == old(p.dead) && Underway(p, drafts, rank, was, seen, seen', joined + more, h)
    ensures d in seen' && forall x :: x in soFar ==> x in seen'
    decreases rank(h), 0, 0
  {
    ghost var mid := p.nodes;
    assert d in drafts && rank(d) < rank(h);
    seen', more := Register(p, drafts, rank, soFar, d);
    GrownOn(drafts, was, seen, mid, soFar, joined, p.nodes, seen', more);
    WithinScope(drafts, rank, seen.Keys, soFar.Keys, h, d, more);
  }

  /** What a dependency needs on top of what has joined already is part of what the step needs. */
  lemma WithinScope(drafts: Graph, rank: Id -> nat, cut: set<Id>, later: set<Id>, h: Id, d: Id, more: set<Id>)
    requires Ranked(drafts, rank) && h in drafts && d in drafts[h].deps && h !in cut && cut <= later && more <= Scope(drafts, rank, later, d)
    ensures more <= Scope(drafts, rank, cut, h) && h !in more
  {
    ScopeShrinks(drafts, rank, cut, later, d);
    RanksFall(drafts, rank, later, d);
  }

  lemma {:induction false} RanksFall(g: Graph, rank: Id -> nat, cut: set<Id>, s: Id)
    requires Ranked(g, rank) && s in g
    ensures forall x :: x in Scope(g, rank, cut, s) ==> rank(x) <= rank(s)
    decreases rank(s)
  {
    forall x | x in Scope(g, rank, cut, s) && x != s
      ensures rank(x) <= rank(s)
    {
      var d :| d in g[s].deps && x in Scope(g, rank, cut, d);
      RanksFall(g, rank, cut, d);
    }
  }

  /** `add_step`: the step and exactly those of the steps it depends on that were not registered yet join the plan, each
      once, and its value in the plan is the one it has as built. */
  method AddStep<V>(p: Plan, drafts: Graph, ghost rank: Id -> nat, seen: map<Id, Id>, h: Id, ghost sem: (Op, seq<V>) -> V)
    returns (seen': map<Id, Id>, ghost joined: set<Id>)
    requires p.Valid() && p.Unswept() && Ranked(drafts, rank) && h in drafts
    requires forall x :: x in seen ==> x in drafts && seen[x] in p.Live() && Denote(p.nodes, sem, seen[x]) == Denote(drafts, sem, x)
    modifies p
    ensures p.Valid() && p.Unswept() && p.dead == old(p.dead) && h in seen' && seen'[h] in p.Live()
    ensures Grown(drafts, old(p.nodes), seen, p.nodes, seen', joined) && joined == Scope(drafts, rank, seen.Keys, h)
    ensures Acyclic(p.nodes) && Denote(p.nodes, sem, seen'[h]) == Denote(drafts, sem, h)
  {
    ghost var was := p.nodes;
    seen', joined := Register(p, drafts, rank, seen, h);
    GrownIsClosed(drafts, was, seen, p.nodes, seen', joined);
    ScopeIsLeast(drafts, rank, seen.Keys, h, joined);
    ghost var rank': Id -> nat :| Ranked(p.nodes, rank');
    forall x | x in seen ensures Eval(p.nodes, rank', sem, map[], seen'[x]) == Eval(drafts, rank, sem, map[], x) {
      SeenKeepsValue(drafts, rank, was, p.nodes, rank', sem, x, seen[x]);
    }
    JoinedKeepsValue(drafts, rank, was, seen, p.nodes, rank', seen', joined, sem, h);
    DenoteIsEval(p.nodes, rank', sem, seen'[h]);
    DenoteIsEval(drafts, rank, sem, h);
  }

  lemma GrownIsClosed(drafts: Graph, was: Graph, seen: map<Id, Id>, now: Graph, seen': map<Id, Id>, joined: set<Id>)
    requires Grown(drafts, was, seen, now, seen', joined)
    ensures ClosedUpTo(drafts, seen.Keys, joined)
  {
    forall s, d | s in joined && d in drafts[s].deps ensures d in joined || d in seen.Keys { assert DraftJoined(drafts, was, now, seen', s); }
  }

  /** A step registered earlier keeps its value. */
  lemma SeenKeepsValue<V>(drafts: Graph, rank: Id -> nat, was: Graph, now: Graph, rank': Id -> nat, sem: (Op, seq<V>) -> V, x: Id, id: Id)
    requires Ranked(drafts, rank) && Ranked(now, rank') && x in drafts && id in was && Acyclic(was)
    requires (forall s :: s in was ==> s in now && now[s] == was[s]) && Denote(was, sem, id) == Denote(drafts, sem, x)
    ensures Eval(now, rank', sem, map[], id) == Eval(drafts, rank, sem, map[], x)
  {
    forall s, d | s in was && d in was[s].deps ensures d in was {}
    PartKeepsValues(now, was, sem, id);
    DenoteIsEval(now, rank', sem, id);
    DenoteIsEval(drafts, rank, sem, x);
  }

  lemma {:induction false} JoinedKeepsValue<V>(drafts: Graph, rank: Id -> nat, was: Graph, seen: map<Id, Id>, now: Graph, rank': Id -> nat,
                                               seen': map<Id, Id>, joined: set<Id>, sem: (Op, seq<V>) -> V, h: Id)
    requires Ranked(drafts, rank) && Ranked(now, rank') && Grown(drafts, was, seen, now, seen', joined) && h in drafts && h in seen' && seen'[h] in now
    requires forall x :: x in seen ==> x in drafts && seen'[x] in now && Eval(now, rank', sem, map[], seen'[x]) == Eval(drafts, rank, sem, map[], x)
    ensures Eval(now, rank', sem, map[], seen'[h]) == Eval(drafts, rank, sem, map[], h)
    decreases rank(h)
  {
    if h !in seen {
      assert DraftJoined(drafts, was, now, seen', h);
      var args := seq(|drafts[h].deps|, i requires 0 <= i < |drafts[h].deps| => Eval(drafts, rank, sem, map[], drafts[h].deps[i]));
      forall i | 0 <= i < |args|
        ensures args[i] == Eval(now, rank', sem, map[], now[seen'[h]].deps[i])
      {
        var d := drafts[h].deps[i];
        assert d in drafts[h].deps && now[seen'[h]].deps[i] == seen'[d] && seen'[d] in now[seen'[h]].deps;
        JoinedKeepsValue(drafts, rank, was, seen, now, rank', seen', joined, sem, d);
      }
      EvalByDeps(now, rank', sem, map[], seen'[h], args);
    }
  }
}
