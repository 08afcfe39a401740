/** The step DAG as a value: nodes, topological ranks, what a step reaches, and the
    value a step denotes.  Every pass over the plan is specified against this module. */
module StepGraph {

  /** A registered step, named by its plan-time id. */
  datatype Id = Id(n: int)

  /** What `isinstance` checks distinguish: a bucket source, an exploded-list source, or an ordinary step. */
  datatype Kind = RootSource | ItemSource | Plain

  /** A step's class and parameters; the class flags are functions of these, so they live here. */
  datatype Op = Op(cls: string, params: string, kind: Kind, dedupable: bool, hoistable: bool)

  datatype Node = Node(op: Op, deps: seq<Id>)

  type Graph = map<Id, Node>

  /** Every dependency is a node, and a rank falls strictly along every edge. */
  ghost predicate Ranked(g: Graph, rank: Id -> nat)
  {
    forall s, d :: s in g && d in g[s].deps ==> d in g && rank(d) < rank(s)
  }

  ghost predicate Acyclic(g: Graph)
  {
    exists rank: Id -> nat :: Ranked(g, rank)
  }

  /** The steps met walking dependencies from `s`, stopping at (and leaving out) the steps of `cut`. */
  ghost function Scope(g: Graph, rank: Id -> nat, cut: set<Id>, s: Id): (r: set<Id>)
    requires Ranked(g, rank) && s in g
    ensures r <= g.Keys && r !! cut
    decreases rank(s)
  {
    if s in cut then {}
    else {s} + set d, x | d in g[s].deps && x in Scope(g, rank, cut, d) :: x
  }

  ghost function Scopes(g: Graph, rank: Id -> nat, cut: set<Id>, targets: set<Id>): (r: set<Id>)
    requires Ranked(g, rank) && forall t :: t in targets ==> t in g
    ensures r <= g.Keys && r !! cut
  {
    set t, x | t in targets && x in Scope(g, rank, cut, t) :: x
  }

  /** A set no dependency leaves, except into `cut`. */
  ghost predicate ClosedUpTo(g: Graph, cut: set<Id>, r: set<Id>)
    requires r <= g.Keys
  {
    forall s, d :: s in r && d in g[s].deps ==> d in r || d in cut
  }

  lemma {:induction false} ScopeIsClosed(g: Graph, rank: Id -> nat, cut: set<Id>, s: Id)
    requires Ranked(g, rank) && s in g
    ensures ClosedUpTo(g, cut, Scope(g, rank, cut, s))
    decreases rank(s)
  {
    if s !in cut {
      var r := Scope(g, rank, cut, s);
      forall x, d | x in r && d in g[x].deps
        ensures d in r || d in cut
      {
        if x == s {
          if d !in cut { assert d in Scope(g, rank, cut, d); }
        } else {
          var e :| e in g[s].deps && x in Scope(g, rank, cut, e);
          ScopeIsClosed(g, rank, cut, e);
        }
      }
    }
  }

  /** The scope is the least set that holds the start and that no dependency leaves except into `cut`. */
  lemma {:induction false} ScopeIsLeast(g: Graph, rank: Id -> nat, cut: set<Id>, s: Id, r: set<Id>)
    requires Ranked(g, rank) && s in g && r <= g.Keys
    requires ClosedUpTo(g, cut, r) && (s in r || s in cut)
    ensures Scope(g, rank, cut, s) <= r
    decreases rank(s)
  {
    if s !in cut {
      forall x | x in Scope(g, rank, cut, s)
        ensures x in r
      {
        if x != s {
          var d :| d in g[s].deps && x in Scope(g, rank, cut, d);
          ScopeIsLeast(g, rank, cut, d, r);
        }
      }
    }
  }

  /** A larger cut leaves less in scope. */
  lemma {:induction false} ScopeShrinks(g: Graph, rank: Id -> nat, cut: set<Id>, more: set<Id>, s: Id)
    requires Ranked(g, rank) && s in g && cut <= more
    ensures Scope(g, rank, more, s) <= Scope(g, rank, cut, s)
    decreases rank(s)
  {
    if s !in more {
      forall d | d in g[s].deps { ScopeShrinks(g, rank, cut, more, d); }
    }
  }

  lemma {:induction false} ScopeIsTransitive(g: Graph, rank: Id -> nat, cut: set<Id>, s: Id, x: Id)
    requires Ranked(g, rank) && s in g && x in Scope(g, rank, cut, s)
    ensures Scope(g, rank, cut, x) <= Scope(g, rank, cut, s)
  {
    ScopeIsClosed(g, rank, cut, s);
    ScopeIsLeast(g, rank, cut, x, Scope(g, rank, cut, s));
  }

  lemma ScopesAreClosed(g: Graph, rank: Id -> nat, cut: set<Id>, targets: set<Id>)
    requires Ranked(g, rank) && forall t :: t in targets ==> t in g
    ensures ClosedUpTo(g, cut, Scopes(g, rank, cut, targets))
    ensures forall t :: t in targets ==> t in cut || t in Scopes(g, rank, cut, targets)
  {
    forall t | t in targets { ScopeIsClosed(g, rank, cut, t); }
    forall t | t in targets && t !in cut
      ensures t in Scopes(g, rank, cut, targets)
    {
      assert t in Scope(g, rank, cut, t);
    }
  }

  lemma ScopesAreLeast(g: Graph, rank: Id -> nat, cut: set<Id>, targets: set<Id>, r: set<Id>)
    requires Ranked(g, rank) && (forall t :: t in targets ==> t in g) && r <= g.Keys
    requires ClosedUpTo(g, cut, r) && forall t :: t in targets ==> t in r || t in cut
    ensures Scopes(g, rank, cut, targets) <= r
  {
    forall t | t in targets { ScopeIsLeast(g, rank, cut, t, r); }
  }

  /** Does `s` depend, directly or not, on `x` (or is it `x` itself)? */
  ghost predicate Reaches(g: Graph, rank: Id -> nat, s: Id, x: Id)
    requires Ranked(g, rank) && s in g
  {
    x in Scope(g, rank, {}, s)
  }

  // ----- what a step denotes -----

  /** The value of `s` at one bucket position, where `env` fixes the columns already seeded there.
      A step is entrywise: its value is a function of its dependencies' values at the same position. */
  ghost function Eval<V>(g: Graph, rank: Id -> nat, sem: (Op, seq<V>) -> V, env: map<Id, V>, s: Id): V
    requires Ranked(g, rank) && s in g
    decreases rank(s)
  {
    if s in env then env[s]
    else sem(g[s].op, seq(|g[s].deps|, i requires 0 <= i < |g[s].deps| => Eval(g, rank, sem, env, g[s].deps[i])))
  }

  lemma EvalByDeps<V>(g: Graph, rank: Id -> nat, sem: (Op, seq<V>) -> V, env: map<Id, V>, s: Id, args: seq<V>)
    requires Ranked(g, rank) && s in g && s !in env
    requires |args| == |g[s].deps|
    requires forall i :: 0 <= i < |args| ==> args[i] == Eval(g, rank, sem, env, g[s].deps[i])
    ensures Eval(g, rank, sem, env, s) == sem(g[s].op, args)
  {
    assert args == seq(|g[s].deps|, i requires 0 <= i < |g[s].deps| => Eval(g, rank, sem, env, g[s].deps[i]));
  }

  /** Two environments that agree on everything `s` can see give it one value. */
  lemma {:induction false} EvalAgrees<V>(g: Graph, rank: Id -> nat, sem: (Op, seq<V>) -> V,
                                         a: map<Id, V>, b: map<Id, V>, s: Id)
    requires Ranked(g, rank) && s in g
    requires forall x :: x in Scope(g, rank, {}, s) && x in a ==> x in b && a[x] == b[x]
    requires forall x :: x in Scope(g, rank, {}, s) && x in b ==> x in a
    ensures Eval(g, rank, sem, a, s) == Eval(g, rank, sem, b, s)
    decreases rank(s)
  {
    assert s in Scope(g, rank, {}, s);
    if s !in a {
      var args := seq(|g[s].deps|, i requires 0 <= i < |g[s].deps| => Eval(g, rank, sem, a, g[s].deps[i]));
      forall i | 0 <= i < |args|
        ensures args[i] == Eval(g, rank, sem, b, g[s].deps[i])
      {
        EvalAgrees(g, rank, sem, a, b, g[s].deps[i]);
      }
      EvalByDeps(g, rank, sem, b, s, args);
    }
  }

  /** Seeding further steps with the values they have anyway changes nothing. */
  lemma {:induction false} EvalSeeded<V>(g: Graph, rank: Id -> nat, sem: (Op, seq<V>) -> V,
                                         env: map<Id, V>, more: map<Id, V>, s: Id)
    requires Ranked(g, rank) && s in g
    requires forall x :: x in env ==> x in more
    requires forall x :: x in more && x in g ==> more[x] == Eval(g, rank, sem, env, x)
    ensures Eval(g, rank, sem, more, s) == Eval(g, rank, sem, env, s)
    decreases rank(s)
  {
    if s !in more {
      var args := seq(|g[s].deps|, i requires 0 <= i < |g[s].deps| => Eval(g, rank, sem, more, g[s].deps[i]));
      forall i | 0 <= i < |args|
        ensures args[i] == Eval(g, rank, sem, env, g[s].deps[i])
      {
        EvalSeeded(g, rank, sem, env, more, g[s].deps[i]);
      }
      EvalByDeps(g, rank, sem, env, s, args);
    }
  }
}
