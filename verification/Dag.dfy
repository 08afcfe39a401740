/** The plan DAG: registration, the reverse-edge index, the one rewrite primitive
    `eradicate`, structural deduplication and tree-shaking. */
module Dag {
  import opened Sequences
  import opened StepGraph
  import opened Ordering

  /** One entry of the reverse index: `user` lists the key step as its dependency number `at`. */
  datatype Edge = Edge(user: Id, at: nat)

  type Index = map<Id, seq<Edge>>

  function EdgesTo(index: Index, d: Id): seq<Edge>
  {
    if d in index then index[d] else []
  }

  ghost predicate HasEdge(g: Graph, e: Edge, d: Id)
  {
    e.user in g && e.at < |g[e.user].deps| && g[e.user].deps[e.at] == d
  }

  /** The index is the exact inverse of the forward edges of `g`, each edge listed once. */
  ghost predicate InverseOf(index: Index, g: Graph)
  {
    && (forall d, e :: e in EdgesTo(index, d) <==> HasEdge(g, e, d))
    && (forall d :: Distinct(EdgesTo(index, d)))
  }

  // ----- what a rewrite does to the graph -----

  function Subst(deps: seq<Id>, dead: Id, survivor: Id): seq<Id>
  {
    seq(|deps|, i requires 0 <= i < |deps| => if deps[i] == dead then survivor else deps[i])
  }

  /** `g` without `dead`, every reference to it repointed to `survivor`. */
  ghost function Replaced(g: Graph, dead: Id, survivor: Id): Graph
  {
    map s | s in g && s != dead :: Node(g[s].op, Subst(g[s].deps, dead, survivor))
  }

  ghost predicate Independent(g: Graph, s: Id, x: Id)
  {
    s in g && forall rank: Id -> nat :: Ranked(g, rank) ==> !Reaches(g, rank, s, x)
  }

  lemma {:induction false} RankBound(g: Graph, rank: Id -> nat) returns (n: nat)
    ensures forall s :: s in g ==> rank(s) < n
    decreases |g|
  {
    if g == map[] {
      n := 0;
    } else {
      var s :| s in g;
      var rest := g - {s};
      assert |rest.Keys| < |g.Keys|;
      n := RankBound(rest, rank);
      forall x | x in g && x != s ensures rank(x) < n { assert x in rest; }
      n := n + rank(s) + 1;
    }
  }

  lemma ReachesThrough(g: Graph, rank: Id -> nat, s: Id, d: Id, x: Id)
    requires Ranked(g, rank) && s in g && d in g[s].deps && Reaches(g, rank, d, x)
    ensures Reaches(g, rank, s, x)
  {
  }

  lemma ShiftedRank(g: Graph, g': Graph, rank: Id -> nat, n: nat, up: set<Id>, dead: Id, survivor: Id)
    requires Ranked(g, rank) && g'.Keys <= g.Keys
    requires forall s :: s in g ==> rank(s) < n
    requires forall s, d :: s in g && d in g[s].deps && d in up ==> s in up
    requires dead in up && survivor !in up && survivor in g
    requires forall s, d :: s in g' && d in g'[s].deps ==>
               d in g' && (d in g[s].deps || (d == survivor && dead in g[s].deps))
    ensures Acyclic(g')
  {
    var rank': Id -> nat := s => if s in up then rank(s) + n else rank(s);
    forall s, d | s in g' && d in g'[s].deps
      ensures d in g' && rank'(d) < rank'(s)
    {
      assert s in g;
      if d in g[s].deps {
        assert rank(d) < rank(s);
      } else {
        assert dead in g[s].deps && dead in up;
        assert s in up;
      }
    }
    assert Ranked(g', rank');
  }

  /** Repointing references from `dead` to a step that does not depend on `dead` makes no cycle. */
  lemma RepointingStaysAcyclic(g: Graph, g': Graph, dead: Id, survivor: Id)
    requires Acyclic(g) && Independent(g, survivor, dead) && dead in g
    requires g'.Keys <= g.Keys
    requires forall s, d :: s in g' && d in g'[s].deps ==>
               d in g' && (d in g[s].deps || (d == survivor && dead in g[s].deps))
    ensures Acyclic(g')
  {
    var rank: Id -> nat :| Ranked(g, rank);
    var n := RankBound(g, rank);
    var up := set s | s in g && Reaches(g, rank, s, dead);
    forall s, d | s in g && d in g[s].deps && d in up
      ensures s in up
    {
      ReachesThrough(g, rank, s, d, dead);
    }
    assert dead in Scope(g, rank, {}, dead);
    ShiftedRank(g, g', rank, n, up, dead, survivor);
  }

  // ----- edges -----

  function DropEdge(edges: seq<Edge>, e: Edge): (r: seq<Edge>)
    ensures forall x :: x in r <==> x in edges && x != e
    ensures Distinct(edges) ==> Distinct(r)
  {
    KeepIsDistinct(edges, x => x != e);
    Keep(edges, x => x != e)
  }

  lemma NewStepStaysAcyclic(g: Graph, id: Id, node: Node)
    requires Acyclic(g) && id !in g && forall d :: d in node.deps ==> d in g
    ensures Acyclic(g[id := node])
  {
    var rank: Id -> nat :| Ranked(g, rank);
    var n := RankBound(g, rank);
    var rank' := (s: Id) => if s == id then n else rank(s);
    assert Ranked(g[id := node], rank');
  }

  lemma NewStepIsIndexed(was: Index, index: Index, g: Graph, id: Id, node: Node)
    requires InverseOf(was, g) && id !in g
    requires forall d, e :: e in EdgesTo(index, d) <==> e in EdgesTo(was, d) || (e.user == id && e.at < |node.deps| && node.deps[e.at] == d)
    requires forall d :: Distinct(EdgesTo(index, d))
    ensures InverseOf(index, g[id := node])
  {
  }

  /** The effect of `eradicate` on every registered step: only the ones still alive are repointed. */
  ghost function Repointed(g: Graph, dead: set<Id>, gone: Id, survivor: Id): Graph
  {
    map s | s in g :: if s in dead then g[s] else Node(g[s].op, Subst(g[s].deps, gone, survivor))
  }

  lemma RepointedKeys(g: Graph, dead: set<Id>, gone: Id, survivor: Id)
    ensures Repointed(g, dead, gone, survivor).Keys == g.Keys
  {
  }

  lemma NotItsOwnDependency(g: Graph, s: Id)
    requires Acyclic(g) && s in g
    ensures s !in g[s].deps
  {
  }

  lemma RepointedIsAcyclic(g: Graph, dead: set<Id>, gone: Id, survivor: Id)
    requires Acyclic(g) && gone in g && Independent(g, survivor, gone)
    ensures Acyclic(Repointed(g, dead, gone, survivor))
  {
    var g' := Repointed(g, dead, gone, survivor);
    forall s, d | s in g' && d in g'[s].deps
      ensures d in g' && (d in g[s].deps || (d == survivor && gone in g[s].deps))
    {
      var i :| 0 <= i < |g'[s].deps| && g'[s].deps[i] == d;
      assert g[s].deps[i] in g[s].deps;
    }
    RepointingStaysAcyclic(g, g', gone, survivor);
  }

  /** The listed references, and no others, now name `survivor`. */
  ghost predicate MovedTo(was: Graph, now: Graph, moved: seq<Edge>, survivor: Id)
  {
    && now.Keys == was.Keys
    && (forall s :: s in now ==> now[s].op == was[s].op && |now[s].deps| == |was[s].deps|)
    && forall s, j :: s in now && 0 <= j < |now[s].deps| ==>
                        now[s].deps[j] == if Edge(s, j) in moved then survivor else was[s].deps[j]
  }

  lemma MoveOne(was: Graph, now: Graph, moved: seq<Edge>, survivor: Id, e: Edge)
    requires MovedTo(was, now, moved, survivor) && e.user in was && e.at < |was[e.user].deps|
    ensures MovedTo(was, now[e.user := now[e.user].(deps := now[e.user].deps[e.at := survivor])], moved + [e], survivor)
  {
  }

  lemma MovedIsRepointed(index: Index, live: Graph, was: Graph, now: Graph, dead: set<Id>, gone: Id, survivor: Id)
    requires InverseOf(index, live) && gone in live
    requires live == map s | s in was && s !in dead :: was[s]
    requires gone !in was[gone].deps
    requires MovedTo(was, now, EdgesTo(index, gone), survivor)
    ensures now == Repointed(was, dead + {gone}, gone, survivor)
  {
    forall s | s in was
      ensures now[s] == Repointed(was, dead + {gone}, gone, survivor)[s]
    {
      forall j | 0 <= j < |was[s].deps|
        ensures Edge(s, j) in EdgesTo(index, gone) <==> s !in dead && was[s].deps[j] == gone
      {
        assert HasEdge(live, Edge(s, j), gone) <==> s !in dead && was[s].deps[j] == gone;
      }
      if s in dead {
        assert now[s].deps == was[s].deps;
      } else {
        assert now[s].deps == Subst(was[s].deps, gone, survivor);
        if s == gone { assert now[s].deps == was[s].deps; }
      }
    }
  }

  lemma EdgesAfterMove(was: Index, mid: Index, g: Graph, gone: Id, survivor: Id)
    requires InverseOf(was, g) && gone != survivor && gone in g && gone !in g[gone].deps
    requires mid == (was - {gone})[survivor := EdgesTo(was, survivor) + EdgesTo(was, gone)]
    ensures forall d :: Distinct(EdgesTo(mid, d))
    ensures forall d, e :: e in EdgesTo(mid, d) <==>
              e.user in g && e.at < |g[e.user].deps| && Subst(g[e.user].deps, gone, survivor)[e.at] == d
  {
    assert forall d :: d != survivor && d != gone ==> EdgesTo(mid, d) == EdgesTo(was, d);
    assert EdgesTo(mid, gone) == [];
    assert EdgesTo(mid, survivor) == EdgesTo(was, survivor) + EdgesTo(was, gone);
    forall e
      ensures !(e in EdgesTo(was, survivor) && e in EdgesTo(was, gone))
    {
      if e in EdgesTo(was, survivor) { assert HasEdge(g, e, survivor); }
    }
    DistinctConcat(EdgesTo(was, survivor), EdgesTo(was, gone));
  }

  lemma EdgesAfterDrop(mid: Index, now: Index, g: Graph, gone: Id, survivor: Id)
    requires gone in g && gone != survivor && gone !in g[gone].deps
    requires forall d, e :: e in EdgesTo(mid, d) <==>
              e.user in g && e.at < |g[e.user].deps| && Subst(g[e.user].deps, gone, survivor)[e.at] == d
    requires DroppedUpTo(mid, now, gone, g[gone].deps, |g[gone].deps|)
    ensures InverseOf(now, Replaced(g, gone, survivor))
  {
    assert Subst(g[gone].deps, gone, survivor) == g[gone].deps;
    forall d, e
      ensures e in EdgesTo(now, d) <==> HasEdge(Replaced(g, gone, survivor), e, d)
    {
      if e.user == gone {
        assert e in EdgesTo(mid, d) ==> e.at < |g[gone].deps| && g[gone].deps[e.at] == d;
        assert e !in EdgesTo(now, d);
      } else {
        assert e in EdgesTo(now, d) <==> e in EdgesTo(mid, d);
      }
    }
  }

  ghost predicate DroppedUpTo(was: Index, now: Index, gone: Id, deps: seq<Id>, n: nat)
    requires n <= |deps|
  {
    && (forall d, e :: e in EdgesTo(now, d) <==> e in EdgesTo(was, d) && !(e.user == gone && e.at < n && deps[e.at] == d))
    && (forall d :: Distinct(EdgesTo(now, d)))
  }

  lemma DropOne(was: Index, now: Index, gone: Id, deps: seq<Id>, n: nat)
    requires n < |deps| && DroppedUpTo(was, now, gone, deps, n) && deps[n] in now
    ensures DroppedUpTo(was, now[deps[n] := DropEdge(now[deps[n]], Edge(gone, n))], gone, deps, n + 1)
  {
    var d0 := deps[n];
    var next := now[d0 := DropEdge(now[d0], Edge(gone, n))];
    forall d
      ensures Distinct(EdgesTo(next, d))
      ensures forall e :: e in EdgesTo(next, d) <==> e in EdgesTo(was, d) && !(e.user == gone && e.at < n + 1 && deps[e.at] == d)
    {
      assert Distinct(EdgesTo(now, d));
      if d != d0 {
        assert EdgesTo(next, d) == EdgesTo(now, d);
      }
    }
  }

  ghost function LiveOf(nodes: Graph, dead: set<Id>): Graph
  {
    map s | s in nodes && s !in dead :: nodes[s]
  }

  /** What a plan keeps between any two of its operations. */
  ghost predicate PlanInvariant(steps: seq<Id>, nodes: Graph, index: Index, dead: set<Id>)
  {
    && Distinct(steps)
    && (forall s :: s in steps <==> s in nodes)
    && dead <= nodes.Keys
    && Acyclic(nodes)
    && (forall s, d :: s in LiveOf(nodes, dead) && d in nodes[s].deps ==> d in LiveOf(nodes, dead))
    && InverseOf(index, LiveOf(nodes, dead))
  }

  lemma LiveAfterEradicate(nodes: Graph, dead: set<Id>, gone: Id, survivor: Id)
    requires gone in LiveOf(nodes, dead) && survivor in LiveOf(nodes, dead) && gone != survivor
    requires forall s, d :: s in LiveOf(nodes, dead) && d in nodes[s].deps ==> d in LiveOf(nodes, dead)
    ensures LiveOf(Repointed(nodes, dead + {gone}, gone, survivor), dead + {gone}) == Replaced(LiveOf(nodes, dead), gone, survivor)
    ensures var g := Replaced(LiveOf(nodes, dead), gone, survivor);
            forall s, d :: s in g && d in g[s].deps ==> d in g
  {
    var g := Replaced(LiveOf(nodes, dead), gone, survivor);
    forall s, d | s in g && d in g[s].deps
      ensures d in g
    {
      var i :| 0 <= i < |g[s].deps| && g[s].deps[i] == d;
      assert nodes[s].deps[i] in nodes[s].deps;
    }
  }

  lemma SweptInvariant(steps: seq<Id>, nodes: Graph, index: Index, dead: set<Id>)
    requires PlanInvariant(steps, nodes, index, dead)
    ensures PlanInvariant(Keep(steps, s => s !in dead), nodes - dead, index, {})
    ensures LiveOf(nodes - dead, {}) == LiveOf(nodes, dead) == nodes - dead
  {
    var kept := nodes - dead;
    assert LiveOf(nodes, dead) == kept;
    assert LiveOf(kept, {}) == kept;
    KeepIsDistinct(steps, s => s !in dead);
    assert Acyclic(kept) by {
      var rank: Id -> nat :| Ranked(nodes, rank);
      assert forall s, d :: s in kept && d in kept[s].deps ==> d in kept && rank(d) < rank(s);
      assert Ranked(kept, rank);
    }
  }

  // ----- deduplication -----

  /** What two steps must share to be merged: class, parameters and current dependencies. */
  datatype StructuralKey = StructuralKey(op: Op, deps: seq<Id>)

  function KeyOf(node: Node): StructuralKey
  {
    StructuralKey(node.op, node.deps)
  }

  function MapIds(r: map<Id, Id>, deps: seq<Id>): seq<Id>
    requires forall d :: d in deps ==> d in r
  {
    seq(|deps|, i requires 0 <= i < |deps| => assert deps[i] in deps; r[deps[i]])
  }

  ghost predicate ImageOf(g: Graph, g': Graph, r: map<Id, Id>, s: Id)
    requires s in g && s in r && forall d :: d in g[s].deps ==> d in r
  {
    r[s] in g' && g'[r[s]].op == g[s].op && g'[r[s]].deps == MapIds(r, g[s].deps)
  }

  /** `g'` is `g` folded along `r`: every step goes to a live step with the same class and parameters whose
      dependencies are the images of its own; survivors and side-effecting steps stay put. */
  ghost predicate Quotient(g: Graph, g': Graph, r: map<Id, Id>)
  {
    && r.Keys == g.Keys
    && (forall s, d :: s in g && d in g[s].deps ==> d in g)
    && (forall s :: s in g ==> ImageOf(g, g', r, s))
    && (forall s :: s in g' ==> s in g && r[s] == s)
    && (forall s :: s in g && !g[s].op.dedupable ==> r[s] == s)
  }

  /** No two steps that may be merged still share a structural key. */
  ghost predicate Merged(g: Graph)
  {
    forall s, t :: s in g && t in g && g[s].op.dedupable && KeyOf(g[s]) == KeyOf(g[t]) ==> s == t
  }

  /** `merged` holds exactly the steps folded away, each with its surviving step. */
  ghost predicate Follows(merged: map<Id, Id>, r: map<Id, Id>, g: Graph, live: Graph)
  {
    && (forall s :: s in merged <==> s in g && s !in live)
    && (forall s :: s in merged ==> s in r && r[s] == merged[s] && merged[s] in live)
  }

  ghost predicate Winners(live: Graph, done: seq<Id>, byKey: map<StructuralKey, Id>)
  {
    && (forall k :: k in byKey ==> byKey[k] in done && byKey[k] in live && live[byKey[k]].op.dedupable && KeyOf(live[byKey[k]]) == k)
    && (forall s :: s in done && s in live && live[s].op.dedupable ==> KeyOf(live[s]) in byKey && byKey[KeyOf(live[s])] == s)
  }

  ghost function Identity(g: Graph): map<Id, Id>
  {
    map s | s in g :: s
  }

  lemma QuotientOfItself(g: Graph)
    requires forall s, d :: s in g && d in g[s].deps ==> d in g
    ensures Quotient(g, g, Identity(g))
  {
    var r := Identity(g);
    forall s | s in g
      ensures ImageOf(g, g, r, s)
    {
      assert MapIds(r, g[s].deps) == g[s].deps by {
        forall i | 0 <= i < |g[s].deps| ensures r[g[s].deps[i]] == g[s].deps[i] { assert g[s].deps[i] in g[s].deps; }
      }
    }
  }

  ghost function Redirected(r: map<Id, Id>, loser: Id, winner: Id): map<Id, Id>
  {
    map s | s in r :: if r[s] == loser then winner else r[s]
  }

  lemma SubstOfImages(r: map<Id, Id>, r': map<Id, Id>, deps: seq<Id>, loser: Id, winner: Id)
    requires forall d :: d in deps ==> d in r
    requires r' == Redirected(r, loser, winner)
    ensures Subst(MapIds(r, deps), loser, winner) == MapIds(r', deps)
  {
    forall i | 0 <= i < |deps|
      ensures Subst(MapIds(r, deps), loser, winner)[i] == MapIds(r', deps)[i]
    {
      assert deps[i] in deps;
    }
  }

  lemma ImageAfterMerge(g: Graph, g': Graph, r: map<Id, Id>, r': map<Id, Id>, loser: Id, winner: Id, s: Id)
    requires s in g && s in r && (forall d :: d in g[s].deps ==> d in r) && ImageOf(g, g', r, s)
    requires loser in g' && winner in g' && loser != winner && KeyOf(g'[loser]) == KeyOf(g'[winner])
    requires r' == Redirected(r, loser, winner)
    ensures ImageOf(g, Replaced(g', loser, winner), r', s)
  {
    SubstOfImages(r, r', g[s].deps, loser, winner);
  }

  /** Steps that may not be merged, and those that are left, still go to themselves. */
  lemma OthersStayAfterMerge(g: Graph, g': Graph, r: map<Id, Id>, loser: Id, winner: Id)
    requires Quotient(g, g', r) && loser in g' && winner in g' && loser != winner && g'[loser].op.dedupable
    ensures forall s :: s in g && !g[s].op.dedupable ==> Redirected(r, loser, winner)[s] == s
    ensures forall s :: s in Replaced(g', loser, winner) ==> s in g && Redirected(r, loser, winner)[s] == s
  {
    forall s | s in g && !g[s].op.dedupable
      ensures Redirected(r, loser, winner)[s] == s
    {
      assert ImageOf(g, g', r, s);
    }
  }

  /** Merging two steps with one structural key folds the quotient once more. */
  lemma QuotientMerge(g: Graph, g': Graph, r: map<Id, Id>, loser: Id, winner: Id)
    requires Quotient(g, g', r)
    requires loser in g' && winner in g' && loser != winner
    requires KeyOf(g'[loser]) == KeyOf(g'[winner]) && g'[loser].op.dedupable
    ensures Quotient(g, Replaced(g', loser, winner), Redirected(r, loser, winner))
  {
    var r' := Redirected(r, loser, winner);
    forall s | s in g
      ensures ImageOf(g, Replaced(g', loser, winner), r', s)
    {
      ImageAfterMerge(g, g', r, r', loser, winner, s);
    }
    OthersStayAfterMerge(g, g', r, loser, winner);
  }

  /** A step earlier in a dependencies-first order cannot depend on a later one. */
  lemma EarlierIsIndependent(g: Graph, order: seq<Id>, i: nat, s: Id)
    requires i < |order| && Distinct(order) && DepsFirst(g, {}, order) && s in order[..i]
    requires forall x :: x in order <==> x in g
    ensures Independent(g, s, order[i])
  {
    assert s in order;
    forall rank: Id -> nat | Ranked(g, rank)
      ensures !Reaches(g, rank, s, order[i])
    {
      var before := set x | x in order[..i];
      forall x | x in before ensures x in g { assert x in order; }
      forall x, d | x in before && d in g[x].deps
        ensures d in before
      {
        var j :| 0 <= j < i && order[..i][j] == x;
        assert order[j] == x && d in order[..j];
        assert order[..j] <= order[..i];
      }
      ScopeIsLeast(g, rank, {}, s, before);
    }
  }

  /** Repointing onto a step that comes earlier keeps the snapshot dependencies-first. */
  lemma OrderSurvivesMerge(g: Graph, dead: set<Id>, order: seq<Id>, i: nat, winner: Id)
    requires i < |order| && Distinct(order) && DepsFirst(g, {}, order) && winner in order[..i]
    requires forall x :: x in order <==> x in g
    ensures DepsFirst(Repointed(g, dead, order[i], winner), {}, order)
  {
    var g' := Repointed(g, dead, order[i], winner);
    forall j, d | 0 <= j < |order| && order[j] in g' && d in g'[order[j]].deps
      ensures d in order[..j]
    {
      var k :| 0 <= k < |g'[order[j]].deps| && g'[order[j]].deps[k] == d;
      var was := g[order[j]].deps[k];
      assert was in g[order[j]].deps && was in order[..j];
      if d != was {
        var m :| 0 <= m < j && order[..j][m] == order[i];
        assert order[m] == order[i];
        assert order[..i] <= order[..j];
      }
    }
  }

  /** The steps already passed never used the loser, so their keys in the table stay current. */
  lemma WinnersAfterMerge(nodes: Graph, dead: set<Id>, order: seq<Id>, i: nat, byKey: map<StructuralKey, Id>, winner: Id)
    requires i < |order| && Distinct(order) && DepsFirst(nodes, {}, order)
    requires order[i] in LiveOf(nodes, dead) && order[i] != winner
    requires Winners(LiveOf(nodes, dead), order[..i], byKey)
    ensures Winners(Replaced(LiveOf(nodes, dead), order[i], winner), order[..i + 1], byKey)
  {
    var live := LiveOf(nodes, dead);
    var next := Replaced(live, order[i], winner);
    PrefixGrows(order, i);
    forall s | s in order[..i] && s in live
      ensures s in next && next[s] == live[s]
    {
      var j :| 0 <= j < i && order[..i][j] == s;
      assert order[j] == s;
      forall d | d in live[s].deps
        ensures d != order[i]
      {
        assert d in order[..j];
        var m :| 0 <= m < j && order[..j][m] == d;
        assert order[m] == d;
      }
      forall k | 0 <= k < |live[s].deps|
        ensures Subst(live[s].deps, order[i], winner)[k] == live[s].deps[k]
      {
        assert live[s].deps[k] in live[s].deps;
      }
      assert Subst(live[s].deps, order[i], winner) == live[s].deps;
    }
  }

  lemma WinnersGrow(live: Graph, done: seq<Id>, byKey: map<StructuralKey, Id>, step: Id)
    requires Winners(live, done, byKey)
    requires step in live && live[step].op.dedupable && KeyOf(live[step]) !in byKey
    ensures Winners(live, done + [step], byKey[KeyOf(live[step]) := step])
  {
  }

  lemma WinnersSkip(live: Graph, done: seq<Id>, byKey: map<StructuralKey, Id>, step: Id)
    requires Winners(live, done, byKey) && (step !in live || !live[step].op.dedupable)
    ensures Winners(live, done + [step], byKey)
  {
  }

  lemma WinnersAreAll(live: Graph, done: seq<Id>, byKey: map<StructuralKey, Id>)
    requires Winners(live, done, byKey) && forall s :: s in live ==> s in done
    ensures Merged(live)
  {
  }

  lemma DistinctFromPrefix(order: seq<Id>, i: nat, s: Id)
    requires Distinct(order) && i < |order| && s in order[..i]
    ensures s != order[i]
  {
    var j :| 0 <= j < i && order[..i][j] == s;
    assert order[j] == s;
  }

  lemma FollowsAfterMerge(merged: map<Id, Id>, r: map<Id, Id>, g: Graph, live: Graph, loser: Id, winner: Id)
    requires Follows(merged, r, g, live) && Quotient(g, live, r)
    requires loser in live && winner in live && loser != winner
    requires forall s :: s in merged ==> merged[s] != loser
    ensures Follows(merged[loser := winner], Redirected(r, loser, winner), g, Replaced(live, loser, winner))
  {
    var merged', r', live' := merged[loser := winner], Redirected(r, loser, winner), Replaced(live, loser, winner);
    forall s ensures s in merged' <==> s in g && s !in live' {}
    forall s | s in merged' ensures s in r' && r'[s] == merged'[s] && merged'[s] in live' {
      if s != loser { assert s in merged && r[s] == merged[s]; }
    }
  }

  /** Where a deduplication pass stands after `done` steps of its snapshot. */
  ghost predicate PassState(order: seq<Id>, done: nat, nodes: Graph, dead: set<Id>, g: Graph, r: map<Id, Id>,
                            merged: map<Id, Id>, byKey: map<StructuralKey, Id>)
  {
    && done <= |order| && Distinct(order) && DepsFirst(nodes, {}, order)
    && (forall s :: s in order <==> s in nodes)
    && Quotient(g, LiveOf(nodes, dead), r) && Follows(merged, r, g, LiveOf(nodes, dead))
    && Winners(LiveOf(nodes, dead), order[..done], byKey)
    && (forall s :: s in merged ==> merged[s] in order[..done])
  }

  /** Of each class the step met first stays: a step goes to itself or to one met before it, those not met yet to themselves. */
  ghost predicate FirstWins(order: seq<Id>, n: nat, r: map<Id, Id>)
    requires n <= |order|
  {
    && (forall j :: 0 <= j < n && order[j] in r ==> r[order[j]] in order[..j + 1])
    && (forall j :: n <= j < |order| && order[j] in r ==> r[order[j]] == order[j])
  }

  /** Nothing, or the step at `i` now goes where one met before it stays. */
  ghost predicate Redirects(order: seq<Id>, i: nat, r: map<Id, Id>, r': map<Id, Id>)
    requires i < |order|
  {
    r' == r || exists winner :: winner in order[..i] && r' == Redirected(r, order[i], winner)
  }

  lemma MetBeforeIs(order: seq<Id>, i: nat, j: nat, x: Id)
    requires j < i < |order| && Distinct(order) && x in order[..j + 1]
    ensures x != order[i]
  {
    var k :| 0 <= k < j + 1 && order[..j + 1][k] == x;
    assert order[k] == x;
  }

  lemma WinnerIsBefore(order: seq<Id>, i: nat, winner: Id)
    requires i < |order| && (winner in order[..i] || winner == order[i])
    ensures winner in order[..i + 1]
  {
    PrefixGrows(order, i);
  }

  lemma FirstWinsNext(order: seq<Id>, i: nat, r: map<Id, Id>, r': map<Id, Id>)
    requires i < |order| && Distinct(order) && FirstWins(order, i, r) && Redirects(order, i, r, r')
    ensures FirstWins(order, i + 1, r')
  {
    forall j | 0 <= j < i + 1 && order[j] in r' ensures r'[order[j]] in order[..j + 1]
    {
      if j < i {
        MetBeforeIs(order, i, j, r[order[j]]);
      } else {
        WinnerIsBefore(order, i, r'[order[i]]);
      }
    }
    forall j | i + 1 <= j < |order| && order[j] in r' ensures r'[order[j]] == order[j] { assert order[j] != order[i]; }
  }

  /** The walk is a dependency order of all steps, and of each class the step it meets first stays. */
  ghost predicate EarliestWins(g: Graph, order: seq<Id>, r: map<Id, Id>)
  {
    Distinct(order) && DepsFirst(g, {}, order) && (forall s :: s in order <==> s in g) && FirstWins(order, |order|, r)
  }

  lemma PassStart(order: seq<Id>, nodes: Graph, dead: set<Id>, g: Graph, r: map<Id, Id>)
    requires Distinct(order) && DepsFirst(nodes, {}, order) && forall s :: s in order <==> s in nodes
    requires Quotient(g, LiveOf(nodes, dead), r) && Follows(map[], r, g, LiveOf(nodes, dead))
    ensures PassState(order, 0, nodes, dead, g, r, map[], map[])
  {
  }

  lemma PassKeep(order: seq<Id>, i: nat, nodes: Graph, dead: set<Id>, g: Graph, r: map<Id, Id>,
                 merged: map<Id, Id>, byKey: map<StructuralKey, Id>)
    requires PassState(order, i, nodes, dead, g, r, merged, byKey) && i < |order|
    ensures order[i] in dead || !nodes[order[i]].op.dedupable ==>
              PassState(order, i + 1, nodes, dead, g, r, merged, byKey)
    ensures order[i] !in dead && nodes[order[i]].op.dedupable && KeyOf(nodes[order[i]]) !in byKey ==>
              PassState(order, i + 1, nodes, dead, g, r, merged, byKey[KeyOf(nodes[order[i]]) := order[i]])
  {
    PrefixGrows(order, i);
    if order[i] in dead || !nodes[order[i]].op.dedupable {
      WinnersSkip(LiveOf(nodes, dead), order[..i], byKey, order[i]);
    } else if KeyOf(nodes[order[i]]) !in byKey {
      WinnersGrow(LiveOf(nodes, dead), order[..i], byKey, order[i]);
    }
  }

  lemma PassEnd(order: seq<Id>, nodes: Graph, dead: set<Id>, g: Graph, r: map<Id, Id>,
                merged: map<Id, Id>, byKey: map<StructuralKey, Id>)
    requires PassState(order, |order|, nodes, dead, g, r, merged, byKey)
    ensures Merged(LiveOf(nodes, dead))
  {
    assert order[..|order|] == order;
    WinnersAreAll(LiveOf(nodes, dead), order, byKey);
  }

  lemma TwoAlike(g: Graph, s: Id, t: Id)
    requires s in g && t in g && s != t && g[s].op.dedupable && KeyOf(g[s]) == KeyOf(g[t])
    ensures !Merged(g)
  {
  }

  lemma PassWinner(order: seq<Id>, i: nat, nodes: Graph, dead: set<Id>, g: Graph, r: map<Id, Id>,
                   merged: map<Id, Id>, byKey: map<StructuralKey, Id>, winner: Id)
    requires PassState(order, i, nodes, dead, g, r, merged, byKey) && i < |order|
    requires order[i] !in dead && nodes[order[i]].op.dedupable
    requires KeyOf(nodes[order[i]]) in byKey && byKey[KeyOf(nodes[order[i]])] == winner
    ensures winner in LiveOf(nodes, dead) && winner != order[i] && Independent(nodes, winner, order[i])
    ensures KeyOf(nodes[winner]) == KeyOf(nodes[order[i]])
    ensures !Merged(LiveOf(nodes, dead))
    ensures forall s :: s in merged ==> merged[s] != order[i]
  {
    DistinctFromPrefix(order, i, winner);
    TwoAlike(LiveOf(nodes, dead), order[i], winner);
    EarlierIsIndependent(nodes, order, i, winner);
    forall s | s in merged ensures merged[s] != order[i] { DistinctFromPrefix(order, i, merged[s]); }
  }

  lemma PassMerge(order: seq<Id>, i: nat, nodes: Graph, dead: set<Id>, g: Graph, r: map<Id, Id>,
                  merged: map<Id, Id>, byKey: map<StructuralKey, Id>, winner: Id,
                  nodes': Graph, dead': set<Id>, merged': map<Id, Id>)
    requires PassState(order, i, nodes, dead, g, r, merged, byKey) && i < |order|
    requires order[i] !in dead && nodes[order[i]].op.dedupable
    requires KeyOf(nodes[order[i]]) in byKey && byKey[KeyOf(nodes[order[i]])] == winner
    requires winner in LiveOf(nodes, dead) && winner != order[i] && KeyOf(nodes[winner]) == KeyOf(nodes[order[i]])
    requires forall s :: s in merged ==> merged[s] != order[i]
    requires forall s, d :: s in LiveOf(nodes, dead) && d in nodes[s].deps ==> d in LiveOf(nodes, dead)
    requires dead' == dead + {order[i]} && nodes' == Repointed(nodes, dead', order[i], winner)
    requires merged' == merged[order[i] := winner]
    ensures PassState(order, i + 1, nodes', dead', g, Redirected(r, order[i], winner), merged', byKey)
  {
    var live := LiveOf(nodes, dead);
    PrefixGrows(order, i);
    assert winner in order[..i];
    OrderSurvivesMerge(nodes, dead + {order[i]}, order, i, winner);
    LiveAfterEradicate(nodes, dead, order[i], winner);
    WinnersAfterMerge(nodes, dead, order, i, byKey, winner);
    QuotientMerge(g, live, r, order[i], winner);
    FollowsAfterMerge(merged, r, g, live, order[i], winner);
    RepointedKeys(nodes, dead + {order[i]}, order[i], winner);
  }

  // ----- the optimize pass -----

  /** One replacement an `optimize` hook asks for: a fresh step registered in place of `gone`, or a registered one. */
  datatype Rewrite = Fresh(gone: Id, op: Op, deps: seq<Id>) | Reuse(gone: Id, to: Id)

  datatype Snapshot = Snapshot(nodes: Graph, dead: set<Id>, count: nat)

  ghost function Registered(now: Snapshot, w: Rewrite): Graph
  {
    if w.Fresh? then now.nodes[Id(now.count) := Node(w.op, w.deps)] else now.nodes
  }

  function Survivor(w: Rewrite, count: nat): Id
  {
    if w.Fresh? then Id(count) else w.to
  }

  /** What a hook may do: replace a live step by another that is, or whose dependencies are, live and that
      does not depend on the step it replaces. */
  ghost predicate Allowed(now: Snapshot, w: Rewrite)
  {
    && w.gone in LiveOf(now.nodes, now.dead)
    && (w.Fresh? ==> Id(now.count) !in now.nodes && forall d :: d in w.deps ==> d in LiveOf(now.nodes, now.dead))
    && (w.Reuse? ==> w.to in LiveOf(now.nodes, now.dead) && w.to != w.gone)
    && Independent(Registered(now, w), Survivor(w, now.count), w.gone)
  }

  ghost function Rewritten(now: Snapshot, w: Rewrite): Snapshot
  {
    Snapshot(Repointed(Registered(now, w), now.dead + {w.gone}, w.gone, Survivor(w, now.count)), now.dead + {w.gone},
             if w.Fresh? then now.count + 1 else now.count)
  }

  ghost predicate Legal(now: Snapshot, script: seq<Rewrite>)
    decreases |script|
  {
    script == [] || (Allowed(now, script[0]) && Legal(Rewritten(now, script[0]), script[1..]))
  }

  ghost function After(now: Snapshot, script: seq<Rewrite>): Snapshot
    decreases |script|
  {
    if script == [] then now else After(Rewritten(now, script[0]), script[1..])
  }

  /** Where a script sends every step, given where the steps so far already went. */
  ghost function Images(now: Snapshot, r: map<Id, Id>, script: seq<Rewrite>): map<Id, Id>
    decreases |script|
  {
    if script == [] then r
    else
      var w := script[0];
      var r' := if w.Fresh? then r[Id(now.count) := Id(now.count)] else r;
      Images(Rewritten(now, w), Redirected(r', w.gone, Survivor(w, now.count)), script[1..])
  }

  /** The chains of `merged` lead from every replaced step to the live step `r` names, and end. */
  ghost predicate Chains(merged: map<Id, Id>, r: map<Id, Id>, turn: map<Id, nat>, turns: nat, nodes: Graph, dead: set<Id>)
  {
    && merged.Keys == dead == turn.Keys && r.Keys == nodes.Keys && dead <= nodes.Keys
    && (forall s :: s in nodes ==> r[s] in nodes && r[s] !in dead)
    && (forall s :: s in nodes && s !in dead ==> r[s] == s)
    && (forall s :: s in merged ==> turn[s] < turns && merged[s] in nodes && r[merged[s]] == r[s])
    && (forall s :: s in merged && merged[s] in merged ==> turn[s] < turn[merged[s]])
  }

  lemma ChainsGrow(merged: map<Id, Id>, r: map<Id, Id>, turn: map<Id, nat>, turns: nat, nodes: Graph, dead: set<Id>, id: Id, node: Node)
    requires Chains(merged, r, turn, turns, nodes, dead) && id !in nodes
    ensures Chains(merged, r[id := id], turn, turns, nodes[id := node], dead)
  {
  }

  lemma ChainsLink(merged: map<Id, Id>, r: map<Id, Id>, turn: map<Id, nat>, turns: nat, nodes: Graph, dead: set<Id>,
                   gone: Id, survivor: Id, nodes': Graph)
    requires Chains(merged, r, turn, turns, nodes, dead) && nodes'.Keys == nodes.Keys
    requires gone in nodes && gone !in dead && survivor in nodes && survivor !in dead && gone != survivor
    ensures Chains(merged[gone := survivor], Redirected(r, gone, survivor), turn[gone := turns], turns + 1, nodes', dead + {gone})
  {
  }

  /** Where the hooks stand before their `i`-th replacement: what is left of the script leads where all of it does. */
  ghost predicate Optimizing(start: Snapshot, script: seq<Rewrite>, i: nat, now: Snapshot, merged: map<Id, Id>, r: map<Id, Id>, turn: map<Id, nat>)
    requires i <= |script|
  {
    && Legal(now, script[i..]) && After(now, script[i..]) == After(start, script)
    && Images(now, r, script[i..]) == Images(start, Identity(start.nodes), script)
    && Chains(merged, r, turn, i, now.nodes, now.dead)
  }

  ghost function WithFresh(r: map<Id, Id>, w: Rewrite, to: Id): map<Id, Id>
  {
    if w.Fresh? then r[to := to] else r
  }

  lemma OptimizedAll(start: Snapshot, script: seq<Rewrite>, end: Snapshot, merged: map<Id, Id>, r: map<Id, Id>, turn: map<Id, nat>)
    requires Optimizing(start, script, |script|, end, merged, r, turn)
    ensures end == After(start, script) && r == Images(start, Identity(start.nodes), script) && merged.Keys == end.dead && r.Keys == end.nodes.Keys
    ensures forall s :: s in r ==> r[s] in LiveOf(end.nodes, end.dead) && (s in LiveOf(end.nodes, end.dead) ==> r[s] == s)
  {
    assert script[|script|..] == [];
  }

  lemma OptimizedOne(start: Snapshot, script: seq<Rewrite>, i: nat, now: Snapshot, merged: map<Id, Id>, r: map<Id, Id>, turn: map<Id, nat>)
    requires i < |script| && Optimizing(start, script, i, now, merged, r, turn)
    ensures var w, to := script[i], Survivor(script[i], now.count);
            Optimizing(start, script, i + 1, Rewritten(now, w), merged[w.gone := to], Redirected(WithFresh(r, w, to), w.gone, to), turn[w.gone := i])
  {
    var w, to, rest := script[i], Survivor(script[i], now.count), script[i..];
    assert rest[1..] == script[i + 1..] && rest[0] == w && rest != [];
    ScriptGoesOn(now, r, rest, w);
    ChainsGoOn(now, merged, r, turn, i, w);
  }

  lemma ScriptGoesOn(now: Snapshot, r: map<Id, Id>, rest: seq<Rewrite>, w: Rewrite)
    requires rest != [] && w == rest[0] && Legal(now, rest)
    ensures Allowed(now, w) && Legal(Rewritten(now, w), rest[1..]) && After(now, rest) == After(Rewritten(now, w), rest[1..])
    ensures var to := Survivor(w, now.count);
            Images(now, r, rest) == Images(Rewritten(now, w), Redirected(WithFresh(r, w, to), w.gone, to), rest[1..])
  {
  }

  lemma ChainsGoOn(now: Snapshot, merged: map<Id, Id>, r: map<Id, Id>, turn: map<Id, nat>, turns: nat, w: Rewrite)
    requires Allowed(now, w) && Chains(merged, r, turn, turns, now.nodes, now.dead)
    ensures var to, next := Survivor(w, now.count), Rewritten(now, w);
            Chains(merged[w.gone := to], Redirected(WithFresh(r, w, to), w.gone, to), turn[w.gone := turns], turns + 1, next.nodes, next.dead)
  {
    var to := Survivor(w, now.count);
    if w.Fresh? {
      ChainsGrow(merged, r, turn, turns, now.nodes, now.dead, to, Node(w.op, w.deps));
    }
    ChainsLink(merged, WithFresh(r, w, to), turn, turns, Registered(now, w), now.dead, w.gone, to, Rewritten(now, w).nodes);
  }

  // ----- tree-shaking -----

  function SideEffecting(steps: seq<Id>, nodes: Graph): (r: seq<Id>)
    requires forall s :: s in steps ==> s in nodes
    ensures forall s :: s in r <==> s in steps && !nodes[s].op.dedupable
    ensures Distinct(steps) ==> Distinct(r)
    ensures InOrderOf(r, steps)
  {
    var writes := s => s in nodes && !nodes[s].op.dedupable;
    KeepIsDistinct(steps, writes);
    KeepIsInOrder(steps, writes);
    Keep(steps, writes)
  }

  function KeepUsers(edges: seq<Edge>, keep: set<Id>): (r: seq<Edge>)
    ensures forall e :: e in r <==> e in edges && e.user in keep
    ensures Distinct(edges) ==> Distinct(r)
  {
    KeepIsDistinct(edges, (e: Edge) => e.user in keep);
    Keep(edges, (e: Edge) => e.user in keep)
  }

  ghost function Writes(g: Graph): set<Id>
  {
    set s | s in g && !g[s].op.dedupable
  }

  /** No step with side effects is lost or becomes another operation. */
  ghost predicate WritesKept(g: Graph, g': Graph)
  {
    forall e :: e in g && !g[e].op.dedupable ==> e in g' && g'[e].op == g[e].op
  }

  lemma NeededKeepsWrites(g: Graph, rank: Id -> nat, roots: set<Id>)
    requires Ranked(g, rank) && roots <= g.Keys
    ensures WritesKept(g, Restricted(g, Needed(g, rank, roots)))
  {
    ScopesAreClosed(g, rank, {}, roots + Writes(g));
    forall e | e in g && !g[e].op.dedupable ensures e in Needed(g, rank, roots) { assert e in Writes(g); }
  }

  lemma OrphansAre(sideEffecting: seq<Id>, reachable: seq<Id>, writes: set<Id>, needed: set<Id>)
    requires Elements(sideEffecting) == writes && Elements(reachable) == needed
    ensures Elements(Keep(sideEffecting, s => s !in reachable)) == writes - needed
  {
    forall s ensures s in Keep(sideEffecting, s => s !in reachable) <==> s in writes && s !in needed {
      assert s in sideEffecting <==> s in writes;
      assert s in reachable <==> s in needed;
    }
  }

  /** Everything the consumed and the side-effecting steps depend on, themselves included. */
  ghost function Needed(g: Graph, rank: Id -> nat, roots: set<Id>): (r: set<Id>)
    requires Ranked(g, rank) && roots <= g.Keys
    ensures r <= g.Keys
  {
    Scopes(g, rank, {}, roots + Writes(g))
  }

  /** The part of the graph whose steps lie in `keep`. */
  ghost function Restricted(g: Graph, keep: set<Id>): Graph
  {
    map s | s in g && s in keep :: g[s]
  }

  function PrunedIndex(index: Index, keep: set<Id>): Index
  {
    map d | d in index && d in keep :: KeepUsers(index[d], keep)
  }

  lemma PrunedIsInverse(index: Index, g: Graph, kept: Graph)
    requires InverseOf(index, g)
    requires forall s :: s in kept ==> s in g && kept[s] == g[s]
    requires forall s, d :: s in kept && d in kept[s].deps ==> d in kept
    ensures InverseOf(PrunedIndex(index, kept.Keys), kept)
  {
    var pruned := PrunedIndex(index, kept.Keys);
    forall d
      ensures Distinct(EdgesTo(pruned, d))
      ensures forall e :: e in EdgesTo(pruned, d) <==> HasEdge(kept, e, d)
    {
      assert Distinct(EdgesTo(index, d));
      forall e
        ensures e in EdgesTo(pruned, d) <==> HasEdge(kept, e, d)
      {
        assert e in EdgesTo(index, d) <==> HasEdge(g, e, d);
        if HasEdge(kept, e, d) {
          assert d in kept[e.user].deps;
        }
      }
    }
  }

  lemma RestrictedKeeps(steps: seq<Id>, nodes: Graph, index: Index, keep: set<Id>)
    requires PlanInvariant(steps, nodes, index, {})
    requires keep <= nodes.Keys && ClosedUpTo(nodes, {}, keep)
    ensures PlanInvariant(Keep(steps, s => s in keep), Restricted(nodes, keep), PrunedIndex(index, keep), {})
    ensures LiveOf(Restricted(nodes, keep), {}) == Restricted(nodes, keep)
  {
    var kept := Restricted(nodes, keep);
    assert kept.Keys == keep;
    assert LiveOf(nodes, {}) == nodes;
    assert LiveOf(kept, {}) == kept;
    PrunedIsInverse(index, nodes, kept);
    KeepIsDistinct(steps, s => s in keep);
    assert Acyclic(kept) by {
      var rank: Id -> nat :| Ranked(nodes, rank);
      assert Ranked(kept, rank);
    }
  }

  lemma KeptIsNeeded(g: Graph, rank: Id -> nat, roots: set<Id>, reachable: set<Id>, forced: set<Id>)
    requires Ranked(g, rank) && roots <= g.Keys
    requires reachable == Scopes(g, rank, {}, roots) && forced == Scopes(g, rank, {}, Writes(g))
    ensures reachable + forced == Needed(g, rank, roots)
    ensures ClosedUpTo(g, {}, Needed(g, rank, roots))
  {
    ScopesAreClosed(g, rank, {}, roots + Writes(g));
  }

  class Plan {
    var steps: seq<Id>
    var nodes: Graph
    var index: Index
    var dead: set<Id>

    /** The registered steps that were not merged or replaced away. */
    ghost function Live(): Graph
      reads this
    {
      LiveOf(nodes, dead)
    }

    ghost predicate Valid()
      reads this
    {
      PlanInvariant(steps, nodes, index, dead)
    }

    constructor ()
      ensures Valid() && Live() == map[] && steps == []
      ensures Unswept()
    {
      steps, nodes, index, dead := [], map[], map[], {};
      new;
      assert Ranked(nodes, _ => 0);
    }

    /** No sweep or trim has renumbered the tail: the next id, the current length, is unused. */
    ghost predicate Unswept()
      reads this
    {
      forall i :: 0 <= i < |steps| ==> steps[i] == Id(i)
    }

    /** Lists every forward edge of the new step `id` under its dependency. */
    method IndexStep(id: Id, deps: seq<Id>)
      requires forall d, e :: e in EdgesTo(index, d) ==> e.user != id
      requires forall d :: Distinct(EdgesTo(index, d))
      modifies this`index
      ensures forall d, e :: e in EdgesTo(index, d) <==>
                e in old(EdgesTo(index, d)) || (e.user == id && e.at < |deps| && deps[e.at] == d)
      ensures forall d :: Distinct(EdgesTo(index, d))
    {
      for i := 0 to |deps|
        invariant forall d, e :: e in EdgesTo(index, d) <==>
                    e in old(EdgesTo(index, d)) || (e.user == id && e.at < i && deps[e.at] == d)
        invariant forall d :: Distinct(EdgesTo(index, d))
      {
        assert Edge(id, i) !in EdgesTo(index, deps[i]);
        index := index[deps[i] := EdgesTo(index, deps[i]) + [Edge(id, i)]];
      }
    }

    /** Registers one step over dependencies that are registered already. */
    method AddStep(op: Op, deps: seq<Id>) returns (id: Id)
      requires Valid() && Unswept()
      requires forall d :: d in deps ==> d in Live()
      modifies this
      ensures Valid() && Unswept()
      ensures id == Id(|old(steps)|) && id !in old(nodes) && nodes == old(nodes)[id := Node(op, deps)]
      ensures Live() == old(Live())[id := Node(op, deps)]
      ensures steps == old(steps) + [id] && dead == old(dead)
    {
      id := Id(|steps|);
      assert id !in steps;
      ghost var g, was := Live(), index;
      NewStepStaysAcyclic(nodes, id, Node(op, deps));
      steps, nodes := steps + [id], nodes[id := Node(op, deps)];
      IndexStep(id, deps);
      NewStepIsIndexed(was, index, g, id, Node(op, deps));
      assert Live() == g[id := Node(op, deps)];
    }

    /** First loop of the source's `eradicate`: each listed reference, and its reverse edge, moves to `survivor`. */
    method MoveDependents(moved: seq<Edge>, survivor: Id)
      requires forall e :: e in moved ==> e.user in nodes && e.at < |nodes[e.user].deps|
      modifies this`nodes, this`index
      ensures MovedTo(old(nodes), nodes, moved, survivor)
      ensures index == old(index)[survivor := EdgesTo(old(index), survivor) + moved]
    {
      ghost var was, had := nodes, EdgesTo(index, survivor);
      index := index[survivor := EdgesTo(index, survivor)];
      assert had + moved[..0] == had;
      for i := 0 to |moved|
        invariant MovedTo(was, nodes, moved[..i], survivor)
        invariant index == old(index)[survivor := had + moved[..i]]
      {
        var e := moved[i];
        assert e in moved;
        PrefixGrows(moved, i);
        assert had + moved[..i + 1] == (had + moved[..i]) + [e];
        MoveOne(was, nodes, moved[..i], survivor, e);
        nodes := nodes[e.user := nodes[e.user].(deps := nodes[e.user].deps[e.at := survivor])];
        index := index[survivor := index[survivor] + [e]];
      }
      assert moved[..|moved|] == moved;
    }

    /** Second loop of `eradicate`: the dead step's own forward edges leave the index. */
    method DropForwardEdges(gone: Id, deps: seq<Id>)
      requires forall d :: Distinct(EdgesTo(index, d))
      modifies this`index
      ensures DroppedUpTo(old(index), index, gone, deps, |deps|)
    {
      ghost var was := index;
      for i := 0 to |deps|
        invariant DroppedUpTo(was, index, gone, deps, i)
      {
        var d := deps[i];
        if d in index {
          DropOne(was, index, gone, deps, i);
          index := index[d := DropEdge(index[d], Edge(gone, i))];
        }
      }
    }

    /** The one rewrite primitive: `gone` leaves the live graph and everything that used it uses `survivor`. */
    method Eradicate(gone: Id, survivor: Id)
      requires Valid() && gone in Live() && survivor in Live()
      requires gone != survivor ==> Independent(nodes, survivor, gone)
      modifies this
      ensures Valid() && steps == old(steps) && nodes.Keys == old(nodes.Keys)
      ensures gone == survivor ==> Live() == old(Live()) && nodes == old(nodes) && dead == old(dead)
      ensures gone != survivor ==> Live() == Replaced(old(Live()), gone, survivor) && dead == old(dead) + {gone}
      ensures gone != survivor ==> nodes == Repointed(old(nodes), old(dead) + {gone}, gone, survivor)
    {
      if gone == survivor {
        return;
      }
      ghost var g, was, wasIndex := Live(), nodes, index;
      NotItsOwnDependency(nodes, gone);
      LiveAfterEradicate(nodes, dead, gone, survivor);
      RepointedIsAcyclic(nodes, dead + {gone}, gone, survivor);
      RepointedKeys(nodes, dead + {gone}, gone, survivor);
      var moved := EdgesTo(index, gone);
      index := index - {gone};
      MoveDependents(moved, survivor);
      MovedIsRepointed(wasIndex, g, was, nodes, dead, gone, survivor);
      EdgesAfterMove(wasIndex, index, g, gone, survivor);
      ghost var mid := index;
      DropForwardEdges(gone, nodes[gone].deps);
      EdgesAfterDrop(mid, index, g, gone, survivor);
      dead := dead + {gone};
    }

    /** Trims the eradicated steps from the step list. */
    method SweepDead()
      requires Valid()
      modifies this
      ensures Valid() && dead == {} && Live() == old(Live()) && nodes == Live()
      ensures forall s :: s in steps <==> s in Live()
    {
      ghost var g := Live();
      SweptInvariant(steps, nodes, index, dead);
      var gone := dead;
      steps := Keep(steps, s => s !in gone);
      nodes := nodes - gone;
      dead := {};
    }

    /** Every live step that uses `s`, once each, whatever the number of its references to `s`. */
    method DependentsOf(s: Id) returns (users: seq<Id>)
      requires Valid()
      ensures Distinct(users)
      ensures forall u :: u in users <==> u in Live() && s in Live()[u].deps
    {
      users := [];
      var edges := EdgesTo(index, s);
      for i := 0 to |edges|
        invariant Distinct(users)
        invariant forall u :: u in users <==> exists j :: 0 <= j < i && edges[j].user == u
      {
        if edges[i].user !in users {
          users := users + [edges[i].user];
        }
      }
      forall u
        ensures u in users <==> u in Live() && s in Live()[u].deps
      {
        if u in users {
          var j :| 0 <= j < |edges| && edges[j].user == u;
          assert edges[j] in edges && HasEdge(Live(), edges[j], s);
        }
        if u in Live() && s in Live()[u].deps {
          var k :| 0 <= k < |Live()[u].deps| && Live()[u].deps[k] == s;
          assert HasEdge(Live(), Edge(u, k), s);
          assert Edge(u, k) in edges;
        }
      }
    }

    /** The loop body of a deduplication pass. */
    method PassStep(order: seq<Id>, i: nat, ghost g: Graph, ghost r: map<Id, Id>,
                    merged: map<Id, Id>, byKey: map<StructuralKey, Id>)
      returns (ghost r': map<Id, Id>, merged': map<Id, Id>, byKey': map<StructuralKey, Id>, merges: bool)
      requires Valid()
      requires PassState(order, i, nodes, dead, g, r, merged, byKey) && i < |order|
      modifies this
      ensures Valid() && steps == old(steps) && nodes.Keys == old(nodes.Keys)
      ensures PassState(order, i + 1, nodes, dead, g, r', merged', byKey')
      ensures old(dead) <= dead && Redirects(order, i, r, r')
      ensures merges ==> order[i] in nodes && order[i] !in old(dead) && order[i] in dead && !Merged(old(Live()))
      ensures !merges ==> nodes == old(nodes) && dead == old(dead) && merged' == merged
    {
      r', merged', byKey', merges := r, merged, byKey, false;
      var step := order[i];
      PassKeep(order, i, nodes, dead, g, r, merged, byKey);
      if step !in dead && nodes[step].op.dedupable {
        var key := KeyOf(nodes[step]);
        if key !in byKey {
          byKey' := byKey[key := step];
        } else {
          var winner := byKey[key];
          PassWinner(order, i, nodes, dead, g, r, merged, byKey, winner);
          ghost var was, wasDead := nodes, dead;
          Eradicate(step, winner);
          r', merged', merges := Redirected(r, step, winner), merged[step := winner], true;
          PassMerge(order, i, was, wasDead, g, r, merged, byKey, winner, nodes, dead, merged');
        }
      }
    }

    /** The snapshot of the order a pass walks. */
    method PassOrder(ghost g: Graph, ghost r: map<Id, Id>) returns (order: seq<Id>)
      requires Valid() && Quotient(g, Live(), r) && Follows(map[], r, g, Live())
      ensures PassState(order, 0, nodes, dead, g, r, map[], map[])
      ensures Distinct(order) && DepsFirst(nodes, {}, order) && forall s :: s in order <==> s in nodes
    {
      ghost var rank: Id -> nat :| Ranked(nodes, rank);
      order := OrderSteps(nodes, rank, steps);
      ScopesAreClosed(nodes, rank, {}, Elements(steps));
      PassStart(order, nodes, dead, g, r);
    }

    /** One pass of `deduplicate` over a snapshot of the order; `merged` collects loser -> winner.
        Merging as the order is walked leaves nothing for a second pass. */
    method DedupPass() returns (changed: bool, merged: map<Id, Id>, ghost r: map<Id, Id>, ghost walked: seq<Id>)
      requires Valid()
      modifies this
      ensures Valid() && steps == old(steps) && nodes.Keys == old(nodes.Keys)
      ensures Quotient(old(Live()), Live(), r) && Follows(merged, r, old(Live()), Live())
      ensures Merged(Live()) && EarliestWins(old(nodes), walked, r)
      ensures old(dead) <= dead && (changed ==> exists s :: s in nodes && s !in old(dead) && s in dead)
      ensures !changed ==> nodes == old(nodes) && dead == old(dead) && merged == map[]
      ensures Merged(old(Live())) ==> !changed
    {
      ghost var g := Live();
      changed, merged, r := false, map[], Identity(g);
      QuotientOfItself(g);
      var order := PassOrder(g, r);
      walked := order;
      var byKey: map<StructuralKey, Id> := map[];
      ghost var loser := Id(-1);
      for i := 0 to |order|
        invariant Valid() && steps == old(steps) && nodes.Keys == old(nodes.Keys)
        invariant PassState(order, i, nodes, dead, g, r, merged, byKey) && FirstWins(order, i, r)
        invariant old(dead) <= dead
        invariant changed ==> loser in nodes && loser !in old(dead) && loser in dead && !Merged(g)
        invariant !changed ==> nodes == old(nodes) && dead == old(dead) && merged == map[]
      {
        var merges;
        ghost var was := r;
        r, merged, byKey, merges := PassStep(order, i, g, r, merged, byKey);
        FirstWinsNext(order, i, was, r);
        if merges {
          changed, loser := true, order[i];
        }
      }
      PassEnd(order, nodes, dead, g, r, merged, byKey);
    }

    /** The last loop of `deduplicate`: every step present at entry is followed to the end of its merge chain. */
    static method CollapseChains(entry: seq<Id>, merged: map<Id, Id>, ghost r: map<Id, Id>, ghost g: Graph)
      returns (remap: map<Id, Id>)
      requires forall s :: s in entry <==> s in g
      requires r.Keys == g.Keys
      requires forall s :: s in merged ==> s in g && r[s] == merged[s] && merged[s] in g && merged[s] !in merged
      requires forall s :: s in g && s !in merged ==> r[s] == s
      ensures remap == r
    {
      remap := map[];
      for i := 0 to |entry|
        invariant forall s :: s in remap <==> s in entry[..i]
        invariant forall s :: s in remap ==> s in r && remap[s] == r[s]
      {
        var final := entry[i];
        assert entry[..i + 1] == entry[..i] + [final] && final in entry;
        while final in merged && merged[final] != final
          invariant final in g && (final == entry[i] || (entry[i] in merged && final == merged[entry[i]]))
          decreases final in merged
        {
          final := merged[final];
        }
        remap := remap[entry[i] := final];
      }
      assert entry[..|entry|] == entry;
      assert remap.Keys == r.Keys;
    }

    /** Where the passes stand: the plan is `g` folded along `r`, and all that can be merged is, but before the first. */
    ghost predicate Folded(g: Graph, r: map<Id, Id>, merged: map<Id, Id>, first: bool)
      reads this
    {
      && Quotient(g, Live(), r) && Follows(merged, r, g, Live())
      && if first then Live() == g && dead == {} && merged == map[] else Merged(Live())
    }

    method AnotherPass(ghost g: Graph, ghost r: map<Id, Id>, ghost walked: seq<Id>, merged: map<Id, Id>, ghost first: bool)
      returns (changed: bool, merged': map<Id, Id>, ghost r': map<Id, Id>, ghost walked': seq<Id>)
      requires Valid() && nodes.Keys == g.Keys && Folded(g, r, merged, first) && (if first then nodes == g else EarliestWins(g, walked, r))
      modifies this
      ensures Valid() && steps == old(steps) && nodes.Keys == old(nodes.Keys) && Folded(g, r', merged', false) && EarliestWins(g, walked', r')
      ensures old(dead) <= dead && (changed ==> exists s :: s in nodes && s !in old(dead) && s in dead)
    {
      var more;
      ghost var r2, walked2;
      changed, more, r2, walked2 := DedupPass();
      r', walked' := if first then r2 else r, if first then walked2 else walked;
      merged' := merged + more;
    }

    /** Passes until one changes nothing. */
    method AllPasses() returns (merged: map<Id, Id>, ghost r: map<Id, Id>, ghost walked: seq<Id>)
      requires Valid() && dead == {}
      modifies this
      ensures Valid() && steps == old(steps) && nodes.Keys == old(nodes.Keys)
      ensures Folded(old(nodes), r, merged, false) && EarliestWins(old(nodes), walked, r)
    {
      ghost var g := nodes;
      NothingFolded();
      r, walked, merged := Identity(g), [], map[];
      var changed := true;
      ghost var first := true;
      while changed
        invariant Valid() && steps == old(steps) && nodes.Keys == g.Keys && Folded(g, r, merged, first) && (first ==> changed)
        invariant if first then nodes == g else EarliestWins(g, walked, r)
        decreases changed, nodes.Keys - dead
      {
        changed, merged, r, walked := AnotherPass(g, r, walked, merged, first);
        first := false;
      }
    }

    lemma NothingFolded()
      requires Valid() && dead == {}
      ensures Live() == nodes && Folded(nodes, Identity(nodes), map[], true)
    {
      assert Live() == nodes;
      QuotientOfItself(nodes);
    }

    /** Merges structurally identical steps to a fixpoint; the result maps every step present at entry to its survivor, the one
        of its class the first walk meets first. */
    method Deduplicate() returns (remap: map<Id, Id>, ghost walked: seq<Id>)
      requires Valid() && dead == {}
      modifies this
      ensures Valid() && dead == {} && nodes == Live()
      ensures Quotient(old(Live()), Live(), remap)
      ensures Merged(Live()) && EarliestWins(old(nodes), walked, remap)
    {
      var entry := steps;
      ghost var g := nodes;
      assert Live() == nodes;
      var merged;
      ghost var r;
      merged, r, walked := AllPasses();
      SweepDead();
      remap := CollapseChains(entry, merged, r, g);
    }

    /** One replacement, the survivor registered first when it is fresh. */
    method Rewire(w: Rewrite)
      requires Valid() && Unswept() && Allowed(Snapshot(nodes, dead, |steps|), w)
      modifies this
      ensures Valid() && Unswept()
      ensures Snapshot(nodes, dead, |steps|) == Rewritten(Snapshot(old(nodes), old(dead), |old(steps)|), w)
    {
      var to := Survivor(w, |steps|);
      if w.Fresh? {
        var id := AddStep(w.op, w.deps);
      }
      Eradicate(w.gone, to);
    }

    /** Runs the replacements the hooks ask for, in the order they ask, then sweeps; the result sends every
        replaced step to the live step at the end of its chain. */
    method Optimize(script: seq<Rewrite>) returns (remap: map<Id, Id>, ghost r: map<Id, Id>)
      requires Valid() && Unswept() && dead == {}
      requires Legal(Snapshot(nodes, {}, |steps|), script)
      modifies this
      ensures Valid() && dead == {} && nodes == Live()
      ensures var end := After(Snapshot(old(nodes), {}, |old(steps)|), script);
              nodes == LiveOf(end.nodes, end.dead) && remap.Keys == end.dead && r.Keys == end.nodes.Keys
      ensures r == Images(Snapshot(old(nodes), {}, |old(steps)|), Identity(old(nodes)), script)
      ensures forall s :: s in r ==> r[s] in nodes && (s in nodes ==> r[s] == s)
      ensures forall s :: s in remap ==> s in r && remap[s] == r[s]
    {
      var merged: map<Id, Id> := map[];
      ghost var turn: map<Id, nat> := map[];
      ghost var start := Snapshot(nodes, {}, |steps|);
      r := Identity(nodes);
      assert script[0..] == script;
      for i := 0 to |script|
        invariant Valid() && Unswept() && Optimizing(start, script, i, Snapshot(nodes, dead, |steps|), merged, r, turn)
      {
        merged, r, turn := OptimizeOne(start, script, i, merged, r, turn);
      }
      ghost var end := Snapshot(nodes, dead, |steps|);
      OptimizedAll(start, script, end, merged, r, turn);
      SweepDead();
      remap := ResolveMerged(merged, r, turn, |script|, end.nodes, end.dead);
    }

    method OptimizeOne(ghost start: Snapshot, script: seq<Rewrite>, i: nat, merged: map<Id, Id>, ghost r: map<Id, Id>, ghost turn: map<Id, nat>)
      returns (merged': map<Id, Id>, ghost r': map<Id, Id>, ghost turn': map<Id, nat>)
      requires Valid() && Unswept() && i < |script| && Optimizing(start, script, i, Snapshot(nodes, dead, |steps|), merged, r, turn)
      modifies this
      ensures Valid() && Unswept() && Optimizing(start, script, i + 1, Snapshot(nodes, dead, |steps|), merged', r', turn')
    {
      var w := script[i];
      ghost var now := Snapshot(nodes, dead, |steps|);
      var to := Survivor(w, |steps|);
      merged', r', turn' := merged[w.gone := to], Redirected(WithFresh(r, w, to), w.gone, to), turn[w.gone := i];
      OptimizedOne(start, script, i, now, merged, r, turn);
      Rewire(w);
    }

    static method FollowChain(start: Id, merged: map<Id, Id>, ghost r: map<Id, Id>, ghost turn: map<Id, nat>, ghost turns: nat,
                              ghost nodes: Graph, ghost dead: set<Id>) returns (final: Id)
      requires Chains(merged, r, turn, turns, nodes, dead) && start in merged
      ensures final == r[start]
    {
      final := merged[start];
      while final in merged && merged[final] != final
        invariant final in nodes && r[final] == r[start]
        decreases if final in merged then turns - turn[final] else 0
      {
        final := merged[final];
      }
    }

    /** `_resolve_merged`: each immediate replacement followed to the end of its chain. */
    static method ResolveMerged(merged: map<Id, Id>, ghost r: map<Id, Id>, ghost turn: map<Id, nat>, ghost turns: nat,
                                ghost nodes: Graph, ghost dead: set<Id>) returns (out: map<Id, Id>)
      requires Chains(merged, r, turn, turns, nodes, dead)
      ensures out.Keys == merged.Keys && forall s :: s in out ==> s in r && out[s] == r[s]
    {
      out := map[];
      var todo := merged.Keys;
      while todo != {}
        invariant todo <= merged.Keys && forall s :: s in out <==> s in merged && s !in todo
        invariant forall s :: s in out ==> s in r && out[s] == r[s]
        decreases |todo|
      {
        var next :| next in todo;
        var final := FollowChain(next, merged, r, turn, turns, nodes, dead);
        out := out[next := final];
        todo := todo - {next};
      }
    }

    /** Trims the plan to `keep`, index and all. */
    method Trim(keep: set<Id>)
      requires Valid() && dead == {} && keep <= nodes.Keys && ClosedUpTo(nodes, {}, keep)
      modifies this
      ensures Valid() && dead == {} && nodes == Live() == Restricted(old(nodes), keep)
      ensures InOrderOf(steps, old(steps))
    {
      RestrictedKeeps(steps, nodes, index, keep);
      KeepIsInOrder(steps, s => s in keep);
      steps := Keep(steps, s => s in keep);
      nodes := map s | s in nodes && s in keep :: nodes[s];
      index := PrunedIndex(index, keep);
    }

    /** Drops what neither a consumption root nor a side-effecting step needs; returns the side-effecting
        steps no root reaches. */
    method TreeShake(roots: seq<Id>, ghost rank: Id -> nat) returns (orphans: seq<Id>)
      requires Valid() && dead == {} && Ranked(nodes, rank)
      requires Elements(roots) <= nodes.Keys
      modifies this
      ensures Valid() && dead == {}
      ensures nodes == Live() == Restricted(old(nodes), Needed(old(nodes), rank, Elements(roots)))
      ensures Distinct(orphans)
      ensures Elements(orphans) == Writes(old(nodes)) - Scopes(old(nodes), rank, {}, Elements(roots))
      ensures forall e :: e in orphans <==> e in old(nodes) && !old(nodes)[e].op.dedupable && e !in Scopes(old(nodes), rank, {}, Elements(roots))
      ensures WritesKept(old(nodes), nodes)
      ensures InOrderOf(orphans, old(steps)) && InOrderOf(steps, old(steps))
    {
      var reachable := OrderSteps(nodes, rank, roots);
      var sideEffecting := SideEffecting(steps, nodes);
      var forced := OrderSteps(nodes, rank, sideEffecting);
      assert Elements(sideEffecting) == Writes(nodes);
      KeptIsNeeded(nodes, rank, Elements(roots), Elements(reachable), Elements(forced));
      NeededKeepsWrites(nodes, rank, Elements(roots));
      orphans := Keep(sideEffecting, s => s !in reachable);
      OrphansAre(sideEffecting, reachable, Writes(nodes), Scopes(nodes, rank, {}, Elements(roots)));
      KeepIsDistinct(sideEffecting, s => s !in reachable);
      KeepIsInOrder(sideEffecting, s => s !in reachable);
      InOrderOfBoth(orphans, sideEffecting, steps);
      Trim(Elements(reachable) + Elements(forced));
    }
  }
}
