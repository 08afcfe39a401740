/** `order_steps` and `order_steps_within`: the depth-first post-order every pass and every bucket runs by. */
module Ordering {
  import opened Sequences
  import opened StepGraph

  ghost predicate DepsFirst(g: Graph, cut: set<Id>, ordered: seq<Id>)
  {
    forall i, d {:trigger d in g[ordered[i]].deps} :: 0 <= i < |ordered| && ordered[i] in g && d in g[ordered[i]].deps ==>
      d in cut || d in ordered[..i]
  }

  /** Which part of the walk is done: every visited step is cut, already ordered, or still open above us. */
  ghost predicate WalkState(g: Graph, cut: set<Id>, visited: set<Id>, ordered: seq<Id>)
  {
    && Distinct(ordered)
    && (forall s :: s in ordered ==> s in g && s !in cut && s in visited)
    && DepsFirst(g, cut, ordered)
  }

  ghost function Open(cut: set<Id>, visited: set<Id>, ordered: seq<Id>): set<Id>
  {
    set v | v in visited && v !in cut && v !in ordered
  }

  lemma Enter(g: Graph, cut: set<Id>, visited: set<Id>, ordered: seq<Id>, s: Id)
    requires WalkState(g, cut, visited, ordered) && s !in visited
    ensures WalkState(g, cut, visited + {s}, ordered)
    ensures Open(cut, visited + {s}, ordered) == Open(cut, visited, ordered) + if s in cut then {} else {s}
  {
  }

  lemma Leave(g: Graph, cut: set<Id>, visited: set<Id>, ordered: seq<Id>, s: Id)
    requires WalkState(g, cut, visited, ordered)
    requires s in g && s in Open(cut, visited, ordered)
    requires forall d :: d in g[s].deps ==> d in cut || d in ordered
    ensures WalkState(g, cut, visited, ordered + [s])
    ensures Open(cut, visited, ordered + [s]) == Open(cut, visited, ordered) - {s}
  {
    var all := ordered + [s];
    forall i, d | 0 <= i < |all| && all[i] in g && d in g[all[i]].deps
      ensures d in cut || d in all[..i]
    {
      if i < |ordered| {
        assert all[..i] == ordered[..i];
      } else {
        assert all[..i] == ordered;
      }
    }
  }

  /** The source's inner `visit`: post-order, each step once, never past the cut. */
  method Visit(g: Graph, ghost rank: Id -> nat, cut: set<Id>, s: Id, visited: set<Id>, ordered: seq<Id>)
    returns (visited': set<Id>, ordered': seq<Id>)
    requires Ranked(g, rank) && s in g
    requires WalkState(g, cut, visited, ordered)
    requires forall v :: v in Open(cut, visited, ordered) ==> rank(v) > rank(s)
    ensures WalkState(g, cut, visited', ordered')
    ensures Open(cut, visited', ordered') == Open(cut, visited, ordered)
    ensures visited <= visited' && ordered <= ordered'
    ensures s in cut || s in ordered'
    ensures forall x :: x in ordered' ==> x in ordered || x in Scope(g, rank, cut, s)
    decreases rank(s)
  {
    visited', ordered' := visited, ordered;
    if s in visited {
      assert s !in Open(cut, visited, ordered);
      return;
    }
    Enter(g, cut, visited, ordered, s);
    visited' := visited' + {s};
    if s in cut {
      return;
    }
    for i := 0 to |g[s].deps|
      invariant WalkState(g, cut, visited', ordered')
      invariant Open(cut, visited', ordered') == Open(cut, visited, ordered) + {s}
      invariant visited + {s} <= visited' && ordered <= ordered'
      invariant forall j :: 0 <= j < i ==> g[s].deps[j] in cut || g[s].deps[j] in ordered'
      invariant forall x :: x in ordered' ==> x in ordered || x in Scope(g, rank, cut, s)
    {
      var d := g[s].deps[i];
      assert d in g[s].deps && rank(d) < rank(s);
      ghost var before := ordered';
      visited', ordered' := Visit(g, rank, cut, d, visited', ordered');
      forall x | x in ordered'
        ensures x in ordered || x in Scope(g, rank, cut, s)
      {
        assert x in before || x in Scope(g, rank, cut, d);
      }
    }
    Leave(g, cut, visited', ordered', s);
    ordered' := ordered' + [s];
  }

  /** Down to, and leaving out, the boundary: exactly the steps a bucket runs, dependencies first. */
  method OrderStepsWithin(g: Graph, ghost rank: Id -> nat, targets: seq<Id>, boundary: set<Id>)
    returns (ordered: seq<Id>)
    requires Ranked(g, rank) && forall t :: t in targets ==> t in g
    ensures Distinct(ordered) && DepsFirst(g, boundary, ordered)
    ensures Elements(ordered) == Scopes(g, rank, boundary, Elements(targets))
  {
    ordered := [];
    var visited: set<Id> := {};
    for i := 0 to |targets|
      invariant WalkState(g, boundary, visited, ordered)
      invariant Open(boundary, visited, ordered) == {}
      invariant forall j :: 0 <= j < i ==> targets[j] in boundary || targets[j] in ordered
      invariant forall s :: s in ordered ==> s in Scopes(g, rank, boundary, Elements(targets))
    {
      assert targets[i] in Elements(targets);
      visited, ordered := Visit(g, rank, boundary, targets[i], visited, ordered);
    }
    ghost var r := set s | s in ordered;
    forall s, d | s in r && d in g[s].deps
      ensures d in r || d in boundary
    {
      var i :| 0 <= i < |ordered| && ordered[i] == s;
      assert d in boundary || d in ordered[..i];
    }
    ScopesAreLeast(g, rank, boundary, Elements(targets), r);
  }

  method OrderSteps(g: Graph, ghost rank: Id -> nat, targets: seq<Id>) returns (ordered: seq<Id>)
    requires Ranked(g, rank) && forall t :: t in targets ==> t in g
    ensures Distinct(ordered) && DepsFirst(g, {}, ordered)
    ensures Elements(ordered) == Scopes(g, rank, {}, Elements(targets))
  {
    ordered := OrderStepsWithin(g, rank, targets, {});
  }
}
