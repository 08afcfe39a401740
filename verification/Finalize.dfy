/** `finalize_plan`: the passes in a row, and what they leave for the executor. */
module Finalize {
  import opened Wrappers
  import opened Sequences
  import opened StepGraph
  import opened Ordering
  import opened Dag
  import opened Layers
  import opened RewriteMeaning

  // ----- remaps -----

  function SendTo(remap: map<Id, Id>, s: Id): Id
  {
    if s in remap then remap[s] else s
  }

  /** `_compose_remaps`: entries of `first` followed through `second`, then those only `second` touched. */
  function ComposeRemaps(first: map<Id, Id>, second: map<Id, Id>): map<Id, Id>
  {
    map s | s in first.Keys + second.Keys :: if s in first then SendTo(second, first[s]) else second[s]
  }

  lemma ComposedIsOneAfterTheOther(first: map<Id, Id>, second: map<Id, Id>, s: Id)
    ensures SendTo(ComposeRemaps(first, second), s) == SendTo(second, SendTo(first, s))
  {
    assert s in ComposeRemaps(first, second) <==> s in first || s in second;
  }

  /** `remap_object_plan`: every field's step and every boundary follow the remap. */
  function RemapObjectPlan(op: ObjectPlan, remap: map<Id, Id>): (r: ObjectPlan)
    ensures |r.fields| == |op.fields|
    decreases op
  {
    op.(parent := SendTo(remap, op.parent),
        fields := seq(|op.fields|, i requires 0 <= i < |op.fields| =>
          op.fields[i].(step := SendTo(remap, op.fields[i].step),
                        child := if HasChildPlan(op, i) then Some(RemapObjectPlan(ChildPlan(op, i), remap)) else None)))
  }

  predicate HasChildPlan(op: ObjectPlan, i: int)
    ensures HasChildPlan(op, i) <==> HasChild(op, i)
  {
    0 <= i < |op.fields| && op.fields[i].child.Some?
  }

  function ChildPlan(op: ObjectPlan, i: int): (c: ObjectPlan)
    requires HasChild(op, i)
    ensures c == Child(op, i) && c < op
  {
    op.fields[i].child.value
  }

  /** The remapped tree: the planned one with every reference sent where the remap says. */
  ghost predicate RemappedBy(op: ObjectPlan, op': ObjectPlan, remap: map<Id, Id>)
    decreases op
  {
    && op'.parent == SendTo(remap, op.parent) && |op'.fields| == |op.fields|
    && (forall i :: 0 <= i < |op.fields| ==>
          op'.fields[i].name == op.fields[i].name && op'.fields[i].isList == op.fields[i].isList && op'.fields[i].step == SendTo(remap, op.fields[i].step))
    && (forall i :: HasChild(op, i) <==> HasChild(op', i))
    && forall i :: HasChild(op, i) && HasChild(op', i) ==> RemappedBy(Child(op, i), Child(op', i), remap)
  }

  /** A tree remapped by a composition is the tree of the first remap, remapped by the second. */
  lemma {:induction false} RemappedInTwo(op: ObjectPlan, op': ObjectPlan, first: map<Id, Id>, second: map<Id, Id>)
    requires RemappedBy(op, op', ComposeRemaps(first, second))
    ensures RemappedBy(RemapObjectPlan(op, first), op', second)
    decreases op
  {
    var mid := RemapObjectPlan(op, first);
    ComposedIsOneAfterTheOther(first, second, op.parent);
    forall i | 0 <= i < |op.fields|
      ensures op'.fields[i].name == mid.fields[i].name && op'.fields[i].isList == mid.fields[i].isList && op'.fields[i].step == SendTo(second, mid.fields[i].step)
    {
      ComposedIsOneAfterTheOther(first, second, op.fields[i].step);
    }
    forall i | HasChild(mid, i) && HasChild(op', i)
      ensures RemappedBy(Child(mid, i), Child(op', i), second)
    {
      assert HasChild(op, i);
      RemappedInTwo(Child(op, i), Child(op', i), first, second);
    }
  }

  // ----- what the executor consumes -----

  /** Every boundary and field step of the tree. */
  ghost function Consumed(op: ObjectPlan): set<Id>
    decreases op, |op.fields| + 1
  {
    {op.parent} + ConsumedBy(op, |op.fields|)
  }

  ghost function ConsumedBy(op: ObjectPlan, k: nat): set<Id>
    requires k <= |op.fields|
    decreases op, k
  {
    if k == 0 then {}
    else ConsumedBy(op, k - 1) + {op.fields[k - 1].step} + if HasChild(op, k - 1) then Consumed(Child(op, k - 1)) else {}
  }

  function Note(seen: seq<Id>, s: Id): (r: seq<Id>)
    ensures Elements(r) == Elements(seen) + {s} && (Distinct(seen) ==> Distinct(r))
  {
    ElementsOfAppend(seen, s);
    if s in seen then seen else seen + [s]
  }

  /** The walk inside `collect_consumption_root_steps`. */
  method CollectRoots(op: ObjectPlan, seen: seq<Id>) returns (seen': seq<Id>)
    requires Distinct(seen)
    ensures Distinct(seen') && Elements(seen') == Elements(seen) + Consumed(op)
    decreases op, 1
  {
    seen' := Note(seen, op.parent);
    for i := 0 to |op.fields|
      invariant Distinct(seen') && Elements(seen') == Elements(seen) + {op.parent} + ConsumedBy(op, i)
    {
      seen' := CollectField(op, i, seen');
    }
  }

  method CollectField(op: ObjectPlan, i: nat, seen: seq<Id>) returns (seen': seq<Id>)
    requires Distinct(seen) && i < |op.fields|
    ensures Distinct(seen') && Elements(seen') == Elements(seen) + ({op.fields[i].step} + if HasChild(op, i) then Consumed(Child(op, i)) else {})
    decreases op, 0
  {
    seen' := Note(seen, op.fields[i].step);
    if op.fields[i].child.Some? {
      assert HasChild(op, i) && Child(op, i) == op.fields[i].child.value;
      seen' := CollectRoots(op.fields[i].child.value, seen');
    }
  }

  method CollectConsumptionRootSteps(op: ObjectPlan) returns (roots: seq<Id>)
    ensures Distinct(roots) && Elements(roots) == Consumed(op)
  {
    roots := CollectRoots(op, []);
  }

  /** A remap sends what the tree consumed to what the remapped tree consumes. */
  lemma {:induction false} ConsumedAfterRemap(op: ObjectPlan, op': ObjectPlan, remap: map<Id, Id>)
    requires RemappedBy(op, op', remap)
    ensures forall t :: t in Consumed(op') <==> exists s :: s in Consumed(op) && t == SendTo(remap, s)
    decreases op, |op.fields| + 1
  {
    ConsumedByAfterRemap(op, op', remap, |op.fields|);
    forall t | t in Consumed(op')
      ensures exists s :: s in Consumed(op) && t == SendTo(remap, s)
    {
      if t == op'.parent {
        assert op.parent in Consumed(op);
      } else {
        assert t in ConsumedBy(op', |op.fields|);
        var s :| s in ConsumedBy(op, |op.fields|) && t == SendTo(remap, s);
        assert s in Consumed(op);
      }
    }
  }

  lemma {:induction false} ConsumedByAfterRemap(op: ObjectPlan, op': ObjectPlan, remap: map<Id, Id>, k: nat)
    requires RemappedBy(op, op', remap) && k <= |op.fields|
    ensures forall t :: t in ConsumedBy(op', k) <==> exists s :: s in ConsumedBy(op, k) && t == SendTo(remap, s)
    decreases op, k
  {
    if k > 0 {
      ConsumedByAfterRemap(op, op', remap, k - 1);
      if HasChild(op, k - 1) {
        ConsumedAfterRemap(Child(op, k - 1), Child(op', k - 1), remap);
      }
      assert op.fields[k - 1].step in ConsumedBy(op, k);
    }
  }

  lemma {:induction false} RemapIsRemappedBy(op: ObjectPlan, remap: map<Id, Id>)
    ensures RemappedBy(op, RemapObjectPlan(op, remap), remap)
    ensures Unannotated(op) ==> Unannotated(RemapObjectPlan(op, remap))
    decreases op
  {
    var op' := RemapObjectPlan(op, remap);
    forall i | HasChild(op, i)
      ensures HasChild(op', i) && RemappedBy(Child(op, i), Child(op', i), remap)
      ensures Unannotated(op) ==> Unannotated(Child(op', i))
    {
      RemapIsRemappedBy(Child(op, i), remap);
    }
  }

  // ----- orphaned side effects -----

  /** A layer of the tree: its boundary and its depth. */
  datatype Bound = Bound(id: Id, depth: nat)

  /** Every layer, in the order the walk meets them. */
  ghost function Bounds(op: ObjectPlan, depth: nat): (r: seq<Bound>)
    ensures |r| > 0 && r[0] == Bound(op.parent, depth)
    decreases op, |op.fields| + 1
  {
    [Bound(op.parent, depth)] + BoundsBelow(op, depth, |op.fields|)
  }

  ghost function BoundsBelow(op: ObjectPlan, depth: nat, k: nat): seq<Bound>
    requires k <= |op.fields|
    decreases op, k
  {
    if k == 0 then []
    else BoundsBelow(op, depth, k - 1) + if HasChild(op, k - 1) then Bounds(Child(op, k - 1), depth + 1) else []
  }

  /** The first of the deepest layers whose boundary lies in `deps`; none when no boundary does. */
  ghost predicate FirstDeepest(layers: seq<Bound>, deps: set<Id>, best: Option<Bound>)
  {
    match best
    case None => forall i :: 0 <= i < |layers| ==> layers[i].id !in deps
    case Some(b) => b.id in deps && exists i :: 0 <= i < |layers| && IsFirstDeepest(layers, deps, b, i)
  }

  ghost predicate IsFirstDeepest(layers: seq<Bound>, deps: set<Id>, b: Bound, i: int)
    requires 0 <= i < |layers|
  {
    && layers[i] == b
    && (forall j :: 0 <= j < i && layers[j].id in deps ==> layers[j].depth < b.depth)
    && (forall j :: i < j < |layers| && layers[j].id in deps ==> layers[j].depth <= b.depth)
  }

  lemma NextBest(layers: seq<Bound>, deps: set<Id>, best: Option<Bound>, b: Bound)
    requires FirstDeepest(layers, deps, best)
    ensures var next := if b.id in deps && (best.None? || b.depth > best.value.depth) then Some(b) else best;
            FirstDeepest(layers + [b], deps, next)
  {
    var more := layers + [b];
    if b.id in deps && (best.None? || b.depth > best.value.depth) {
      if best.Some? {
        var i :| 0 <= i < |layers| && IsFirstDeepest(layers, deps, best.value, i);
        forall j | 0 <= j < |layers| && layers[j].id in deps ensures layers[j].depth < b.depth { assert j == i || j < i || j > i; }
      }
      assert IsFirstDeepest(more, deps, b, |layers|);
    } else if best.Some? {
      var i :| 0 <= i < |layers| && IsFirstDeepest(layers, deps, best.value, i);
      assert IsFirstDeepest(more, deps, best.value, i);
    }
  }

  /** The walk inside `_deepest_owner_parent_id`, carrying the best layer met so far. */
  method VisitLayers(op: ObjectPlan, depth: nat, deps: set<Id>, ghost met: seq<Bound>, best: Option<Bound>) returns (best': Option<Bound>)
    requires FirstDeepest(met, deps, best)
    ensures FirstDeepest(met + Bounds(op, depth), deps, best')
    decreases op
  {
    best' := best;
    NextBest(met, deps, best, Bound(op.parent, depth));
    if op.parent in deps && (best.None? || depth > best.value.depth) {
      best' := Some(Bound(op.parent, depth));
    }
    assert met + [Bound(op.parent, depth)] + BoundsBelow(op, depth, 0) == met + [Bound(op.parent, depth)];
    for i := 0 to |op.fields|
      invariant FirstDeepest(met + [Bound(op.parent, depth)] + BoundsBelow(op, depth, i), deps, best')
    {
      ghost var sofar := met + [Bound(op.parent, depth)] + BoundsBelow(op, depth, i);
      assert met + [Bound(op.parent, depth)] + BoundsBelow(op, depth, i + 1)
          == if HasChild(op, i) then sofar + Bounds(Child(op, i), depth + 1) else sofar;
      if op.fields[i].child.Some? {
        assert HasChild(op, i) && Child(op, i) == op.fields[i].child.value;
        best' := VisitLayers(op.fields[i].child.value, depth + 1, deps, sofar, best');
      }
    }
    assert met + Bounds(op, depth) == met + [Bound(op.parent, depth)] + BoundsBelow(op, depth, |op.fields|);
  }

  /** Which boundary owns an orphan: the first of the deepest it depends on, or the root when it depends on none. */
  ghost predicate Owns(op: ObjectPlan, deps: set<Id>, owner: Id)
  {
    exists best: Option<Bound> :: FirstDeepest(Bounds(op, 0), deps, best) && owner == if best.Some? then best.value.id else op.parent
  }

  // ----- the owner in plain terms -----

  /** `path` leads down the tree from child to child. */
  ghost predicate IsLayer(op: ObjectPlan, path: seq<nat>)
    decreases |path|
  {
    path == [] || (HasChild(op, path[0]) && IsLayer(Child(op, path[0]), path[1..]))
  }

  ghost function LayerAt(op: ObjectPlan, path: seq<nat>): ObjectPlan
    requires IsLayer(op, path)
    decreases |path|
  {
    if path == [] then op else LayerAt(Child(op, path[0]), path[1..])
  }

  /** The walk meets `p` before `q`: it lies above it, or under an earlier field. */
  ghost predicate MetBefore(p: seq<nat>, q: seq<nat>)
    decreases |p|
  {
    q != [] && (p == [] || p[0] < q[0] || (p[0] == q[0] && MetBefore(p[1..], q[1..])))
  }

  /** The paths of the layers, as the walk meets them. */
  ghost function Paths(op: ObjectPlan): seq<seq<nat>>
    decreases op, |op.fields| + 1
  {
    [[]] + PathsBelow(op, |op.fields|)
  }

  ghost function PathsBelow(op: ObjectPlan, k: nat): seq<seq<nat>>
    requires k <= |op.fields|
    decreases op, k
  {
    if k == 0 then [] else PathsBelow(op, k - 1) + if HasChild(op, k - 1) then Under(k - 1, Paths(Child(op, k - 1))) else []
  }

  ghost function Under(k: nat, paths: seq<seq<nat>>): seq<seq<nat>>
  {
    seq(|paths|, i requires 0 <= i < |paths| => [k] + paths[i])
  }

  /** Each layer the walk meets, with the number of steps down to it for its depth. */
  ghost predicate Locates(op: ObjectPlan, depth: nat, bounds: seq<Bound>, paths: seq<seq<nat>>)
  {
    |bounds| == |paths| && forall i :: 0 <= i < |paths| ==> IsLayer(op, paths[i]) && bounds[i] == Bound(LayerAt(op, paths[i]).parent, depth + |paths[i]|)
  }

  lemma UnderLocates(op: ObjectPlan, depth: nat, k: nat, bounds: seq<Bound>, paths: seq<seq<nat>>)
    requires HasChild(op, k) && Locates(Child(op, k), depth + 1, bounds, paths)
    ensures Locates(op, depth, bounds, Under(k, paths))
  {
    forall i | 0 <= i < |paths|
      ensures var p := Under(k, paths)[i]; IsLayer(op, p) && bounds[i] == Bound(LayerAt(op, p).parent, depth + |p|)
    {
      assert ([k] + paths[i])[1..] == paths[i];
    }
  }

  lemma {:induction false} PathsLocate(op: ObjectPlan, depth: nat)
    ensures Locates(op, depth, Bounds(op, depth), Paths(op))
    decreases op, |op.fields| + 1
  {
    PathsBelowLocate(op, depth, |op.fields|);
    var bounds, paths := BoundsBelow(op, depth, |op.fields|), PathsBelow(op, |op.fields|);
    assert Bounds(op, depth) == [Bound(op.parent, depth)] + bounds && Paths(op) == [[]] + paths;
  }

  lemma {:induction false} PathsBelowLocate(op: ObjectPlan, depth: nat, k: nat)
    requires k <= |op.fields|
    ensures Locates(op, depth, BoundsBelow(op, depth, k), PathsBelow(op, k))
    decreases op, k
  {
    if k > 0 {
      PathsBelowLocate(op, depth, k - 1);
      if HasChild(op, k - 1) {
        PathsLocate(Child(op, k - 1), depth + 1);
        UnderLocates(op, depth, k - 1, Bounds(Child(op, k - 1), depth + 1), Paths(Child(op, k - 1)));
      }
    }
  }

  /** Every layer of the tree is met. */
  lemma {:induction false} EveryLayerIsMet(op: ObjectPlan, p: seq<nat>)
    requires IsLayer(op, p)
    ensures p in Paths(op)
    decreases |p|
  {
    if p == [] {
      assert Paths(op)[0] == p;
    } else {
      EveryLayerIsMet(Child(op, p[0]), p[1..]);
      InPathsBelow(op, p[0], p[1..], |op.fields|);
      assert p == [p[0]] + p[1..];
    }
  }

  lemma {:induction false} InPathsBelow(op: ObjectPlan, k: nat, p: seq<nat>, n: nat)
    requires HasChild(op, k) && p in Paths(Child(op, k)) && k < n <= |op.fields|
    ensures [k] + p in PathsBelow(op, n)
    decreases n
  {
    if n - 1 == k {
      var paths := Paths(Child(op, k));
      var i :| 0 <= i < |paths| && paths[i] == p;
      assert Under(k, paths)[i] == [k] + p;
    } else {
      InPathsBelow(op, k, p, n - 1);
    }
  }

  ghost predicate InWalkOrder(paths: seq<seq<nat>>)
  {
    forall i, j :: 0 <= i < j < |paths| ==> MetBefore(paths[i], paths[j])
  }

  lemma UnderInOrder(k: nat, paths: seq<seq<nat>>)
    requires InWalkOrder(paths)
    ensures InWalkOrder(Under(k, paths))
  {
    forall i, j | 0 <= i < j < |paths|
      ensures MetBefore([k] + paths[i], [k] + paths[j])
    {
      assert ([k] + paths[i])[1..] == paths[i] && ([k] + paths[j])[1..] == paths[j];
    }
  }

  lemma {:induction false} PathsInOrder(op: ObjectPlan)
    ensures InWalkOrder(Paths(op))
    decreases op, |op.fields| + 1
  {
    PathsBelowInOrder(op, |op.fields|);
  }

  lemma {:induction false} PathsBelowInOrder(op: ObjectPlan, k: nat)
    requires k <= |op.fields|
    ensures InWalkOrder(PathsBelow(op, k)) && forall p :: p in PathsBelow(op, k) ==> p != [] && p[0] < k
    decreases op, k
  {
    if k > 0 {
      PathsBelowInOrder(op, k - 1);
      if HasChild(op, k - 1) {
        PathsInOrder(Child(op, k - 1));
        UnderInOrder(k - 1, Paths(Child(op, k - 1)));
        FieldsInOrder(PathsBelow(op, k - 1), k - 1, Paths(Child(op, k - 1)));
      }
    }
  }

  lemma FieldsInOrder(before: seq<seq<nat>>, k: nat, paths: seq<seq<nat>>)
    requires InWalkOrder(before) && InWalkOrder(Under(k, paths)) && forall p :: p in before ==> p != [] && p[0] < k
    ensures InWalkOrder(before + Under(k, paths)) && forall p :: p in before + Under(k, paths) ==> p != [] && p[0] < k + 1
  {
    var all := before + Under(k, paths);
    forall i, j | 0 <= i < j < |all|
      ensures MetBefore(all[i], all[j])
    {
      if i < |before| && |before| <= j { assert all[i] == before[i] && all[i] in before; }
    }
  }

  ghost predicate DependsOnLayer(op: ObjectPlan, deps: set<Id>, p: seq<nat>)
  {
    IsLayer(op, p) && LayerAt(op, p).parent in deps
  }

  /** The owner is the boundary of a layer the orphan depends on that lies no higher than any other such layer and is met first
      among those as deep; an orphan that depends on no layer's boundary belongs to the root. */
  ghost predicate OwnsDeepest(op: ObjectPlan, deps: set<Id>, owner: Id)
  {
    || (owner == op.parent && forall p :: !DependsOnLayer(op, deps, p))
    || (exists p :: DependsOnLayer(op, deps, p) && LayerAt(op, p).parent == owner && DeepestFirst(op, deps, p))
  }

  ghost predicate DeepestFirst(op: ObjectPlan, deps: set<Id>, p: seq<nat>)
  {
    forall q :: DependsOnLayer(op, deps, q) ==> |q| < |p| || (|q| == |p| && (q == p || MetBefore(p, q)))
  }

  lemma OwnerIsDeepest(op: ObjectPlan, deps: set<Id>, owner: Id)
    requires Owns(op, deps, owner)
    ensures OwnsDeepest(op, deps, owner)
  {
    var bounds, paths := Bounds(op, 0), Paths(op);
    PathsLocate(op, 0);
    PathsInOrder(op);
    var best: Option<Bound> :| FirstDeepest(bounds, deps, best) && owner == if best.Some? then best.value.id else op.parent;
    if best.None? {
      forall p | IsLayer(op, p) ensures LayerAt(op, p).parent !in deps { NoLayerMet(op, deps, p); }
    } else {
      var i :| 0 <= i < |bounds| && IsFirstDeepest(bounds, deps, best.value, i);
      forall q | DependsOnLayer(op, deps, q)
        ensures |q| < |paths[i]| || (|q| == |paths[i]| && (q == paths[i] || MetBefore(paths[i], q)))
      {
        EveryLayerIsMet(op, q);
        var j :| 0 <= j < |paths| && paths[j] == q;
        assert bounds[j].id in deps && (j < i || j == i || i < j);
      }
      assert DependsOnLayer(op, deps, paths[i]) && DeepestFirst(op, deps, paths[i]);
    }
  }

  lemma NoLayerMet(op: ObjectPlan, deps: set<Id>, p: seq<nat>)
    requires FirstDeepest(Bounds(op, 0), deps, None) && IsLayer(op, p)
    ensures LayerAt(op, p).parent !in deps
  {
    PathsLocate(op, 0);
    EveryLayerIsMet(op, p);
    var i :| 0 <= i < |Paths(op)| && Paths(op)[i] == p;
    assert Bounds(op, 0)[i].id !in deps;
  }

  method DeepestOwnerParentId(op: ObjectPlan, deps: set<Id>) returns (owner: Id)
    ensures Owns(op, deps, owner) && OwnsDeepest(op, deps, owner)
  {
    var best := VisitLayers(op, 0, deps, [], None);
    assert [] + Bounds(op, 0) == Bounds(op, 0);
    owner := if best.Some? then best.value.id else op.parent;
    OwnerIsDeepest(op, deps, owner);
  }

  /** There is only one such boundary. */
  lemma OwnerIsUnique(op: ObjectPlan, deps: set<Id>, a: Id, b: Id)
    requires Owns(op, deps, a) && Owns(op, deps, b)
    ensures a == b
  {
    var layers := Bounds(op, 0);
    var x: Option<Bound> :| FirstDeepest(layers, deps, x) && a == if x.Some? then x.value.id else op.parent;
    var y: Option<Bound> :| FirstDeepest(layers, deps, y) && b == if y.Some? then y.value.id else op.parent;
    if x.Some? && y.Some? {
      var i :| 0 <= i < |layers| && IsFirstDeepest(layers, deps, x.value, i);
      var j :| 0 <= j < |layers| && IsFirstDeepest(layers, deps, y.value, j);
      assert i == j || i < j || j < i;
    }
  }

  /** The tree after attaching: each layer's effects grow by the orphans its boundary owns, in order. */
  ghost predicate EffectsAttached(op: ObjectPlan, op': ObjectPlan, orphans: seq<Id>, owner: map<Id, Id>)
    decreases op
  {
    && (forall e :: e in orphans ==> e in owner)
    && op'.parent == op.parent && op'.hoistedIn == op.hoistedIn && op'.hoistedOut == op.hoistedOut && |op'.fields| == |op.fields|
    && op'.effects == op.effects + OwnedBy(orphans, owner, op.parent)
    && (forall i :: 0 <= i < |op.fields| ==> SameField(op.fields[i], op'.fields[i]))
    && (forall i :: HasChild(op, i) <==> HasChild(op', i))
    && forall i :: HasChild(op, i) && HasChild(op', i) ==> EffectsAttached(Child(op, i), Child(op', i), orphans, owner)
  }

  function OwnedBy(orphans: seq<Id>, owner: map<Id, Id>, p: Id): (mine: seq<Id>)
    requires forall e :: e in orphans ==> e in owner
    ensures forall e :: e in mine <==> e in orphans && owner[e] == p
  {
    Keep(orphans, e => e in owner && owner[e] == p)
  }

  ghost predicate FieldAttached(before: FieldPlan, after: FieldPlan, orphans: seq<Id>, owner: map<Id, Id>)
  {
    && SameField(before, after) && (after.child.Some? <==> before.child.Some?)
    && (after.child.Some? ==> EffectsAttached(before.child.value, after.child.value, orphans, owner))
  }

  /** `rebuild` inside `attach_effect_steps`. */
  method Rebuild(op: ObjectPlan, orphans: seq<Id>, owner: map<Id, Id>) returns (op': ObjectPlan)
    requires forall e :: e in orphans ==> e in owner
    ensures EffectsAttached(op, op', orphans, owner)
    decreases op
  {
    var fields: seq<FieldPlan> := [];
    for i := 0 to |op.fields|
      invariant |fields| == i && forall j :: 0 <= j < i ==> FieldAttached(op.fields[j], fields[j], orphans, owner)
    {
      var fp := op.fields[i];
      if fp.child.Some? {
        assert HasChild(op, i) && Child(op, i) == fp.child.value;
        var child := Rebuild(fp.child.value, orphans, owner);
        fp := fp.(child := Some(child));
      }
      fields := fields + [fp];
    }
    op' := op.(fields := fields, effects := op.effects + OwnedBy(orphans, owner, op.parent));
    forall i | HasChild(op, i) ensures FieldAttached(op.fields[i], op'.fields[i], orphans, owner) {}
  }

  /** `attach_effect_steps`: every orphan is handed to the layers bounded by the boundary that owns it. */
  method AttachEffectSteps(g: Graph, ghost rank: Id -> nat, op: ObjectPlan, orphans: seq<Id>)
    returns (op': ObjectPlan, owner: map<Id, Id>)
    requires Ranked(g, rank) && forall e :: e in orphans ==> e in g
    ensures owner.Keys == Elements(orphans) && EffectsAttached(op, op', orphans, owner)
    ensures forall e :: e in orphans ==> Owns(op, Scope(g, rank, {}, e), owner[e]) && OwnsDeepest(op, Scope(g, rank, {}, e), owner[e])
  {
    owner := map[];
    for i := 0 to |orphans|
      invariant owner.Keys == Elements(orphans[..i])
      invariant forall e :: e in owner ==> e in g && Owns(op, Scope(g, rank, {}, e), owner[e])
    {
      ElementsOfPrefix(orphans, i);
      var ordered := OrderSteps(g, rank, [orphans[i]]);
      assert Elements([orphans[i]]) == {orphans[i]};
      assert Elements(ordered) == Scope(g, rank, {}, orphans[i]);
      var id := DeepestOwnerParentId(op, Elements(ordered));
      owner := owner[orphans[i] := id];
    }
    assert orphans[..|orphans|] == orphans;
    op' := Rebuild(op, orphans, owner);
    forall e | e in orphans ensures OwnsDeepest(op, Scope(g, rank, {}, e), owner[e]) { OwnerIsDeepest(op, Scope(g, rank, {}, e), owner[e]); }
  }

  /** How many layers the boundary `b` bounds. */
  ghost function LayersBoundedBy(op: ObjectPlan, b: Id, k: nat): nat
    requires k <= |op.fields|
    decreases op, k
  {
    if k == 0 then (if op.parent == b then 1 else 0)
    else LayersBoundedBy(op, b, k - 1) + if HasChild(op, k - 1) then LayersBoundedBy(Child(op, k - 1), b, |Child(op, k - 1).fields|) else 0
  }

  /** How many layers run `e` for effect. */
  ghost function LayersRunning(op: ObjectPlan, e: Id, k: nat): nat
    requires k <= |op.fields|
    decreases op, k
  {
    if k == 0 then (if e in op.effects then 1 else 0)
    else LayersRunning(op, e, k - 1) + if HasChild(op, k - 1) then LayersRunning(Child(op, k - 1), e, |Child(op, k - 1).fields|) else 0
  }

  /** An orphan runs in exactly the layers its owner bounds -- so once exactly when no other layer shares that boundary;
      that there is such a layer is `OwnerIsABoundary`. */
  lemma {:induction false} OrphanRunsWithItsOwner(op: ObjectPlan, op': ObjectPlan, orphans: seq<Id>, owner: map<Id, Id>, e: Id, k: nat)
    requires EffectsAttached(op, op', orphans, owner) && e in orphans && k <= |op.fields|
    requires LayersRunning(op, e, |op.fields|) == 0
    ensures LayersRunning(op', e, k) == LayersBoundedBy(op, owner[e], k)
    decreases op, k
  {
    NoneBelow(op, e, k, |op.fields|);
    if k > 0 {
      OrphanRunsWithItsOwner(op, op', orphans, owner, e, k - 1);
      if HasChild(op, k - 1) {
        var c := Child(op, k - 1);
        OrphanRunsWithItsOwner(c, Child(op', k - 1), orphans, owner, e, |c.fields|);
      }
    }
  }

  lemma {:induction false} NoneBelow(op: ObjectPlan, e: Id, k: nat, n: nat)
    requires k <= n <= |op.fields| && LayersRunning(op, e, n) == 0
    ensures LayersRunning(op, e, k) == 0 && e !in op.effects
    ensures forall i :: 0 <= i < k && HasChild(op, i) ==> LayersRunning(Child(op, i), e, |Child(op, i).fields|) == 0
    decreases n
  {
    if n > 0 {
      NoneBelow(op, e, if k == n then k - 1 else k, n - 1);
    }
  }

  // ----- the layout passes: hoist, then populate -----

  ghost predicate NoEffects(op: ObjectPlan)
    decreases op
  {
    op.effects == [] && forall i :: HasChild(op, i) ==> NoEffects(Child(op, i))
  }

  lemma {:induction false} HoistedInIsIn(g: Graph, rank: Id -> nat, op: ObjectPlan, above: set<Id>, isTop: bool)
    requires Ranked(g, rank) && StepsIn(g, op) && Hoisted(g, rank, op, above, isTop)
    ensures HoistedInIn(g, op)
    decreases op
  {
    forall s | s in op.hoistedIn ensures s in g { assert s in Elements(op.hoistedIn); }
    forall i | HasChild(op, i)
      ensures HoistedInIn(g, Child(op, i))
    {
      HoistedInIsIn(g, rank, Child(op, i), AboveChild(g, rank, op, above, Child(op, i).parent), false);
    }
  }

  lemma {:induction false} UnannotatedIsIn(g: Graph, op: ObjectPlan)
    requires Unannotated(op)
    ensures HoistedInIn(g, op)
    decreases op
  {
    forall i | HasChild(op, i) ensures HoistedInIn(g, Child(op, i)) { UnannotatedIsIn(g, Child(op, i)); }
  }

  lemma LiftedBySame(a: ObjectPlan, b: ObjectPlan)
    requires SameShape(a, b) && SameAnnotations(a, b)
    ensures LiftedBy(a.fields) == LiftedBy(b.fields)
  {
    forall y | y in LiftedBy(a.fields)
      ensures y in LiftedBy(b.fields)
    {
      var f :| f in a.fields && f.child.Some? && y in f.child.value.hoistedOut;
      var i :| 0 <= i < |a.fields| && a.fields[i] == f;
      assert HasChild(a, i) && HasChild(b, i) && b.fields[i] in b.fields;
      assert SameAnnotations(Child(a, i), Child(b, i));
    }
    forall y | y in LiftedBy(b.fields)
      ensures y in LiftedBy(a.fields)
    {
      var f :| f in b.fields && f.child.Some? && y in f.child.value.hoistedOut;
      var i :| 0 <= i < |b.fields| && b.fields[i] == f;
      assert HasChild(b, i) && HasChild(a, i) && a.fields[i] in a.fields;
      assert SameAnnotations(Child(a, i), Child(b, i));
    }
  }

  /** Populating the layers leaves the hoist annotations as they are. */
  lemma {:induction false} PopulatedStaysHoisted(g: Graph, rank: Id -> nat, a: ObjectPlan, b: ObjectPlan, above: set<Id>, isTop: bool)
    requires Ranked(g, rank) && StepsIn(g, a) && StepsIn(g, b) && SameShape(a, b) && SameAnnotations(a, b)
    requires Hoisted(g, rank, a, above, isTop)
    ensures Hoisted(g, rank, b, above, isTop)
    decreases a
  {
    LiftedBySame(a, b);
    assert FieldSteps(a.fields) == FieldSteps(b.fields);
    assert Targets(a) == Targets(b);
    forall i | HasChild(b, i)
      ensures Hoisted(g, rank, Child(b, i), AboveChild(g, rank, b, above, Child(b, i).parent), false)
    {
      assert HasChild(a, i) && SameShape(Child(a, i), Child(b, i)) && SameAnnotations(Child(a, i), Child(b, i));
      PopulatedStaysHoisted(g, rank, Child(a, i), Child(b, i), AboveChild(g, rank, a, above, Child(a, i).parent), false);
    }
  }

  lemma {:induction false} PopulatedStaysUnannotated(a: ObjectPlan, b: ObjectPlan)
    requires SameShape(a, b) && SameAnnotations(a, b) && Unannotated(a)
    ensures Unannotated(b)
    decreases a
  {
    forall i | HasChild(b, i)
      ensures Unannotated(Child(b, i))
    {
      assert HasChild(a, i) && SameShape(Child(a, i), Child(b, i)) && SameAnnotations(Child(a, i), Child(b, i));
      PopulatedStaysUnannotated(Child(a, i), Child(b, i));
    }
  }

  lemma {:induction false} ShapeIsTransitive(a: ObjectPlan, b: ObjectPlan, c: ObjectPlan)
    requires SameShape(a, b) && SameShape(b, c)
    ensures SameShape(a, c)
    decreases a
  {
    forall i | HasChild(a, i) && HasChild(c, i)
      ensures SameShape(Child(a, i), Child(c, i))
    {
      assert HasChild(b, i);
      ShapeIsTransitive(Child(a, i), Child(b, i), Child(c, i));
    }
  }

  /** What the tree is laid out as: hoisted (or not), every layer with its run list. */
  ghost predicate LaidOut(g: Graph, rank: Id -> nat, op: ObjectPlan, hoist: bool)
    requires Ranked(g, rank)
  {
    && StepsIn(g, op) && HoistedInIn(g, op) && Populated(g, rank, op)
    && if hoist then Hoisted(g, rank, op, {}, true) else Unannotated(op)
  }

  method LayOut(g: Graph, ghost rank: Id -> nat, op: ObjectPlan, hoist: bool) returns (op': ObjectPlan)
    requires Ranked(g, rank) && StepsIn(g, op) && Unannotated(op)
    ensures SameShape(op, op') && LaidOut(g, rank, op', hoist)
  {
    if hoist {
      var lifted := HoistSteps(g, rank, op);
      HoistedInIsIn(g, rank, lifted, {}, true);
      op' := PopulateLayers(g, rank, lifted);
      PopulatedStaysHoisted(g, rank, lifted, op', {}, true);
      ShapeIsTransitive(op, lifted, op');
    } else {
      UnannotatedIsIn(g, op);
      op' := PopulateLayers(g, rank, op);
      PopulatedStaysUnannotated(op, op');
    }
  }

  // ----- the rewriting passes: optimize, then deduplicate -----

  /** Wherever the two passes sent a step, it is live there with the value it was planned with. */
  ghost predicate KeepsValues<V>(g: Graph, g': Graph, remap: map<Id, Id>, sem: (Op, seq<V>) -> V)
  {
    Acyclic(g) && Acyclic(g') && forall s :: s in g ==> SendTo(remap, s) in g' && Denote(g', sem, SendTo(remap, s)) == Denote(g, sem, s)
  }

  /** Remaps that keep values compose. */
  lemma ComposedKeepsValues<V>(g: Graph, mid: Graph, g': Graph, first: map<Id, Id>, second: map<Id, Id>, sem: (Op, seq<V>) -> V)
    requires KeepsValues(g, mid, first, sem) && KeepsValues(mid, g', second, sem)
    ensures KeepsValues(g, g', ComposeRemaps(first, second), sem)
  {
    forall s | s in g
      ensures SendTo(ComposeRemaps(first, second), s) == SendTo(second, SendTo(first, s))
    {
      ComposedIsOneAfterTheOther(first, second, s);
    }
  }

  lemma OptimizedKeepsValues<V>(start: Snapshot, script: seq<Rewrite>, sem: (Op, seq<V>) -> V, r: map<Id, Id>, opt: map<Id, Id>,
                                end: Snapshot, live: Graph)
    requires Acyclic(start.nodes) && ValuePreserving(start, sem, script)
    requires r == Images(start, Identity(start.nodes), script)
    requires end == After(start, script) && live == LiveOf(end.nodes, end.dead) && opt.Keys == end.dead && r.Keys == end.nodes.Keys
    requires forall s :: s in r ==> r[s] in live && (s in live ==> r[s] == s)
    requires forall s :: s in opt ==> s in r && opt[s] == r[s]
    requires forall x, d :: x in live && d in live[x].deps ==> d in live
    ensures Acyclic(live) ==> KeepsValues(start.nodes, live, opt, sem)
    ensures forall s :: s in start.nodes ==> s in r && SendTo(opt, s) == r[s]
  {
    forall s | s in start.nodes
      ensures s in r && SendTo(opt, s) == r[s]
      ensures SendTo(opt, s) in live && Acyclic(live) && Denote(live, sem, SendTo(opt, s)) == Denote(start.nodes, sem, s)
    {
      OptimizedKeepsValue(start, script, sem, r, end, live, s);
      assert SendTo(opt, s) == r[s];
    }
  }

  lemma OptimizedKeepsValue<V>(start: Snapshot, script: seq<Rewrite>, sem: (Op, seq<V>) -> V, r: map<Id, Id>, end: Snapshot, live: Graph, s: Id)
    requires Acyclic(start.nodes) && ValuePreserving(start, sem, script) && r == Images(start, Identity(start.nodes), script)
    requires end == After(start, script) && live == LiveOf(end.nodes, end.dead) && r.Keys == end.nodes.Keys && s in start.nodes
    requires forall x :: x in r ==> r[x] in live
    requires forall x, d :: x in live && d in live[x].deps ==> d in live
    ensures s in end.nodes && r[s] in live && Acyclic(live) && Denote(live, sem, r[s]) == Denote(start.nodes, sem, s)
  {
    OptimizeKeepsValues(start.nodes, start, Identity(start.nodes), sem, script, s);
    PartKeepsValues(end.nodes, live, sem, r[s]);
  }

  lemma FoldedKeepsValues<V>(live: Graph, merged: Graph, fold: map<Id, Id>, sem: (Op, seq<V>) -> V)
    requires Quotient(live, merged, fold) && Acyclic(live) && Acyclic(merged)
    ensures KeepsValues(live, merged, fold, sem)
  {
    forall s | s in live { MergedKeepsValue(live, merged, fold, sem, s); }
  }

  /** `sent` is where the script sends the planned steps: each replaced one to the live end of its chain. */
  ghost predicate SentBy(start: Snapshot, script: seq<Rewrite>, sent: map<Id, Id>)
  {
    && sent.Keys == After(start, script).dead
    && forall s :: s in start.nodes ==> s in Images(start, Identity(start.nodes), script) && SendTo(sent, s) == Images(start, Identity(start.nodes), script)[s]
  }

  /** The plan the script leaves. */
  ghost function LiveAfter(start: Snapshot, script: seq<Rewrite>): Graph
  {
    LiveOf(After(start, script).nodes, After(start, script).dead)
  }

  method OptimizePass<V>(p: Plan, script: seq<Rewrite>, ghost sem: (Op, seq<V>) -> V) returns (sent: map<Id, Id>)
    requires p.Valid() && p.Unswept() && p.dead == {} && Acyclic(p.nodes)
    requires Legal(Snapshot(p.nodes, {}, |p.steps|), script) && ValuePreserving(Snapshot(p.nodes, {}, |p.steps|), sem, script)
    modifies p
    ensures p.Valid() && p.dead == {} && p.nodes == p.Live() && Acyclic(p.nodes)
    ensures KeepsValues(old(p.nodes), p.nodes, sent, sem)
    ensures var start := Snapshot(old(p.nodes), {}, |old(p.steps)|); SentBy(start, script, sent) && p.nodes == LiveAfter(start, script)
  {
    ghost var start := Snapshot(p.nodes, {}, |p.steps|);
    ghost var r;
    sent, r := p.Optimize(script);
    OptimizedKeepsValues(start, script, sem, r, sent, After(start, script), p.nodes);
  }

  method RewritePasses<V>(p: Plan, script: seq<Rewrite>, ghost sem: (Op, seq<V>) -> V)
    returns (remap: map<Id, Id>, ghost sent: map<Id, Id>, ghost fold: map<Id, Id>)
    requires p.Valid() && p.Unswept() && p.dead == {} && Acyclic(p.nodes)
    requires Legal(Snapshot(p.nodes, {}, |p.steps|), script) && ValuePreserving(Snapshot(p.nodes, {}, |p.steps|), sem, script)
    modifies p
    ensures p.Valid() && p.dead == {} && p.nodes == p.Live() && Acyclic(p.nodes)
    ensures KeepsValues(old(p.nodes), p.nodes, remap, sem) && Merged(p.nodes)
    ensures remap == ComposeRemaps(sent, fold)
    ensures var start := Snapshot(old(p.nodes), {}, |old(p.steps)|); SentBy(start, script, sent) && Quotient(LiveAfter(start, script), p.nodes, fold)
  {
    ghost var g := p.nodes;
    var opt := OptimizePass(p, script, sem);
    ghost var live := p.nodes;
    var folded, _ := p.Deduplicate();
    FoldedKeepsValues(live, p.nodes, folded, sem);
    ComposedKeepsValues(g, live, p.nodes, opt, folded, sem);
    remap, sent, fold := ComposeRemaps(opt, folded), opt, folded;
  }

  // ----- tree-shake, then attach what it orphans -----

  lemma {:induction false} ConsumedAreIn(g: Graph, op: ObjectPlan, k: nat)
    requires StepsIn(g, op) && k <= |op.fields|
    ensures ConsumedBy(op, k) <= g.Keys
    decreases op, k
  {
    if k > 0 {
      ConsumedAreIn(g, op, k - 1);
      assert Targets(op)[k - 1] == op.fields[k - 1].step;
      assert op.fields[k - 1].step in Targets(op);
      if HasChild(op, k - 1) {
        ConsumedAreIn(g, Child(op, k - 1), |Child(op, k - 1).fields|);
      }
    }
  }

  lemma {:induction false} FieldIsConsumed(op: ObjectPlan, i: nat, k: nat)
    requires i < k <= |op.fields|
    ensures op.fields[i].step in ConsumedBy(op, k)
    ensures HasChild(op, i) ==> Consumed(Child(op, i)) <= ConsumedBy(op, k)
    decreases k
  {
    if i < k - 1 {
      FieldIsConsumed(op, i, k - 1);
    }
  }

  /** Once the consumed steps and the orphans are in the plan, the tree with the orphans attached is too. */
  lemma {:induction false} AttachedStepsAreIn(g: Graph, op: ObjectPlan, op': ObjectPlan, orphans: seq<Id>, owner: map<Id, Id>)
    requires Consumed(op) <= g.Keys && NoEffects(op) && Unannotated(op) && EffectsAttached(op, op', orphans, owner)
    requires forall e :: e in orphans ==> e in g
    ensures StepsIn(g, op') && Unannotated(op')
    decreases op
  {
    forall t | t in Targets(op')
      ensures t in g
    {
      var i :| 0 <= i < |Targets(op')| && Targets(op')[i] == t;
      if i < |op.fields| {
        FieldIsConsumed(op, i, |op.fields|);
      } else {
        assert t in op'.effects;
      }
    }
    forall i | HasChild(op', i)
      ensures StepsIn(g, Child(op', i)) && Unannotated(Child(op', i))
    {
      FieldIsConsumed(op, i, |op.fields|);
      AttachedStepsAreIn(g, Child(op, i), Child(op', i), orphans, owner);
    }
  }

  lemma {:induction false} AttachingKeepsLayers(op: ObjectPlan, op': ObjectPlan, orphans: seq<Id>, owner: map<Id, Id>, depth: nat, b: Id, k: nat)
    requires EffectsAttached(op, op', orphans, owner) && k <= |op.fields|
    ensures BoundsBelow(op', depth, k) == BoundsBelow(op, depth, k)
    ensures LayersBoundedBy(op', b, k) == LayersBoundedBy(op, b, k)
    ensures ConsumedBy(op', k) == ConsumedBy(op, k)
    decreases op, k
  {
    if k > 0 {
      AttachingKeepsLayers(op, op', orphans, owner, depth, b, k - 1);
      if HasChild(op, k - 1) {
        var c := Child(op, k - 1);
        AttachingKeepsLayers(c, Child(op', k - 1), orphans, owner, depth + 1, b, |c.fields|);
      }
    }
  }

  ghost predicate Met(layers: seq<Bound>, b: Id)
  {
    exists i :: 0 <= i < |layers| && layers[i].id == b
  }

  lemma MetInParts(a: seq<Bound>, c: seq<Bound>, b: Id)
    ensures Met(a + c, b) <==> Met(a, b) || Met(c, b)
  {
    if i :| 0 <= i < |a| && a[i].id == b { assert (a + c)[i].id == b; }
    if i :| 0 <= i < |c| && c[i].id == b { assert (a + c)[|a| + i].id == b; }
    if i :| 0 <= i < |a + c| && (a + c)[i].id == b { assert if i < |a| then a[i].id == b else c[i - |a|].id == b; }
  }

  /** A boundary met by the walk bounds at least one layer. */
  lemma {:induction false} MetIsBounded(op: ObjectPlan, depth: nat, b: Id, k: nat)
    requires k <= |op.fields| && (op.parent == b || Met(BoundsBelow(op, depth, k), b))
    ensures LayersBoundedBy(op, b, k) >= 1
    decreases op, k
  {
    if k > 0 {
      if op.parent == b || Met(BoundsBelow(op, depth, k - 1), b) {
        MetIsBounded(op, depth, b, k - 1);
      } else {
        MetInParts(BoundsBelow(op, depth, k - 1), if HasChild(op, k - 1) then Bounds(Child(op, k - 1), depth + 1) else [], b);
        var c := Child(op, k - 1);
        MetInParts([Bound(c.parent, depth + 1)], BoundsBelow(c, depth + 1, |c.fields|), b);
        MetIsBounded(c, depth + 1, b, |c.fields|);
      }
    }
  }

  /** The owner of an orphan is the boundary of some layer of the tree. */
  lemma OwnerIsABoundary(op: ObjectPlan, deps: set<Id>, owner: Id)
    requires Owns(op, deps, owner)
    ensures LayersBoundedBy(op, owner, |op.fields|) >= 1
  {
    if owner != op.parent {
      var best: Option<Bound> :| FirstDeepest(Bounds(op, 0), deps, best) && owner == if best.Some? then best.value.id else op.parent;
      var i :| 0 <= i < |Bounds(op, 0)| && IsFirstDeepest(Bounds(op, 0), deps, best.value, i);
      assert Met(Bounds(op, 0), owner);
      MetInParts([Bound(op.parent, 0)], BoundsBelow(op, 0, |op.fields|), owner);
    }
    MetIsBounded(op, 0, owner, |op.fields|);
  }

  /** `e` runs for effect in exactly the layers bounded by the boundary that owns it, of which there is at least one. */
  ghost predicate RunsWithItsOwner(op: ObjectPlan, deps: set<Id>, e: Id)
  {
    exists owner :: Owns(op, deps, owner) && LayersRunning(op, e, |op.fields|) == LayersBoundedBy(op, owner, |op.fields|) >= 1
  }

  /** Every write of the plan is needed by something consumed, or runs for effect with its owner. */
  ghost predicate EveryWriteRuns(g: Graph, rank: Id -> nat, op: ObjectPlan)
    requires Ranked(g, rank) && Consumed(op) <= g.Keys
  {
    forall e :: e in g && !g[e].op.dedupable ==> e in Scopes(g, rank, {}, Consumed(op)) || RunsWithItsOwner(op, Scope(g, rank, {}, e), e)
  }

  lemma {:induction false} NothingRunsYet(op: ObjectPlan, e: Id, k: nat)
    requires NoEffects(op) && k <= |op.fields|
    ensures LayersRunning(op, e, k) == 0
    decreases op, k
  {
    if k > 0 {
      NothingRunsYet(op, e, k - 1);
      if HasChild(op, k - 1) {
        NothingRunsYet(Child(op, k - 1), e, |Child(op, k - 1).fields|);
      }
    }
  }

  lemma AttachedRunsWithItsOwner(op: ObjectPlan, op': ObjectPlan, orphans: seq<Id>, owner: map<Id, Id>, deps: set<Id>, e: Id)
    requires NoEffects(op) && EffectsAttached(op, op', orphans, owner) && e in orphans && Owns(op, deps, owner[e])
    ensures RunsWithItsOwner(op', deps, e)
  {
    NothingRunsYet(op, e, |op.fields|);
    OrphanRunsWithItsOwner(op, op', orphans, owner, e, |op.fields|);
    AttachingKeepsLayers(op, op', orphans, owner, 0, owner[e], |op.fields|);
    assert Bounds(op', 0) == Bounds(op, 0);
    assert Owns(op', deps, owner[e]);
    OwnerIsABoundary(op, deps, owner[e]);
  }

  lemma {:induction false} RestrictedScope(g: Graph, rank: Id -> nat, keep: set<Id>, s: Id)
    requires Ranked(g, rank) && keep <= g.Keys && ClosedUpTo(g, {}, keep) && s in keep
    ensures Ranked(Restricted(g, keep), rank) && Scope(Restricted(g, keep), rank, {}, s) == Scope(g, rank, {}, s)
    decreases rank(s)
  {
    assert Ranked(Restricted(g, keep), rank);
    forall d | d in g[s].deps
      ensures d in keep && Scope(Restricted(g, keep), rank, {}, d) == Scope(g, rank, {}, d)
    {
      RestrictedScope(g, rank, keep, d);
    }
  }

  lemma NeededIsClosed(g: Graph, rank: Id -> nat, roots: set<Id>)
    requires Ranked(g, rank) && roots <= g.Keys
    ensures ClosedUpTo(g, {}, Needed(g, rank, roots)) && roots + Writes(g) <= Needed(g, rank, roots)
  {
    ScopesAreClosed(g, rank, {}, roots + Writes(g));
  }

  lemma SameScopes(g: Graph, h: Graph, rank: Id -> nat, roots: set<Id>)
    requires Ranked(g, rank) && Ranked(h, rank) && roots <= g.Keys && roots <= h.Keys
    requires forall t :: t in roots ==> Scope(g, rank, {}, t) == Scope(h, rank, {}, t)
    ensures Scopes(g, rank, {}, roots) == Scopes(h, rank, {}, roots)
  {
  }

  lemma ShakenScopes(g: Graph, rank: Id -> nat, roots: set<Id>, keep: set<Id>, kept: Graph)
    requires Ranked(g, rank) && roots <= g.Keys && keep == Needed(g, rank, roots) && kept == Restricted(g, keep)
    ensures kept.Keys == keep && Ranked(kept, rank) && roots <= keep && Writes(kept) == Writes(g) && Writes(g) <= keep
    ensures Scopes(kept, rank, {}, roots) == Scopes(g, rank, {}, roots)
  {
    NeededIsClosed(g, rank, roots);
    ShakenIsRanked(g, rank, keep, kept);
    ShakenWrites(g, keep, kept);
    ShakenReach(g, rank, roots, keep, kept);
  }

  lemma ShakenIsRanked(g: Graph, rank: Id -> nat, keep: set<Id>, kept: Graph)
    requires Ranked(g, rank) && keep <= g.Keys && ClosedUpTo(g, {}, keep) && kept == Restricted(g, keep)
    ensures kept.Keys == keep && Ranked(kept, rank)
  {
  }

  lemma ShakenWrites(g: Graph, keep: set<Id>, kept: Graph)
    requires keep <= g.Keys && Writes(g) <= keep && kept == Restricted(g, keep)
    ensures Writes(kept) == Writes(g)
  {
    forall s ensures s in Writes(kept) <==> s in Writes(g) {}
  }

  lemma ShakenReach(g: Graph, rank: Id -> nat, roots: set<Id>, keep: set<Id>, kept: Graph)
    requires Ranked(g, rank) && Ranked(kept, rank) && keep <= g.Keys && ClosedUpTo(g, {}, keep) && roots <= keep && kept == Restricted(g, keep)
    ensures Scopes(kept, rank, {}, roots) == Scopes(g, rank, {}, roots)
  {
    forall s | s in roots
      ensures Scope(g, rank, {}, s) == Scope(kept, rank, {}, s)
    {
      RestrictedScope(g, rank, keep, s);
    }
    SameScopes(g, kept, rank, roots);
  }

  /** The plan trimmed to what the tree consumes, with every orphaned write attached to the layers that must run it. */
  method ShakeAndAttach(p: Plan, op: ObjectPlan) returns (op': ObjectPlan, ghost rank: Id -> nat, ghost orphans: seq<Id>, ghost owner: map<Id, Id>)
    requires p.Valid() && p.dead == {} && Acyclic(p.nodes)
    requires Consumed(op) <= p.nodes.Keys && NoEffects(op) && Unannotated(op)
    modifies p
    ensures p.Valid() && Ranked(old(p.nodes), rank) && p.nodes == Restricted(old(p.nodes), Needed(old(p.nodes), rank, Consumed(op)))
    ensures EffectsAttached(op, op', orphans, owner) && Consumed(op') == Consumed(op)
    ensures Ranked(p.nodes, rank) && StepsIn(p.nodes, op') && Unannotated(op') && Consumed(op') <= p.nodes.Keys
    ensures EveryWriteRuns(p.nodes, rank, op')
  {
    ghost var was := p.nodes;
    rank :| Ranked(was, rank);
    var roots := CollectConsumptionRootSteps(op);
    var effects := p.TreeShake(roots, rank);
    ghost var keep := Needed(was, rank, Consumed(op));
    ShakenScopes(was, rank, Consumed(op), keep, p.nodes);
    assert forall e :: e in effects ==> e in Elements(effects);
    var owners;
    op', owners := AttachEffectSteps(p.nodes, rank, op, effects);
    orphans, owner := effects, owners;
    AttachedStepsAreIn(p.nodes, op, op', effects, owners);
    AttachingKeepsLayers(op, op', effects, owners, 0, op.parent, |op.fields|);
    WritesRun(p.nodes, rank, op, op', effects, owners);
  }

  lemma WritesRun(g: Graph, rank: Id -> nat, op: ObjectPlan, op': ObjectPlan, orphans: seq<Id>, owner: map<Id, Id>)
    requires Ranked(g, rank) && Consumed(op) <= g.Keys && NoEffects(op) && EffectsAttached(op, op', orphans, owner)
    requires Elements(orphans) == Writes(g) - Scopes(g, rank, {}, Consumed(op)) && Consumed(op') == Consumed(op)
    requires forall e :: e in orphans ==> Owns(op, Scope(g, rank, {}, e), owner[e])
    ensures EveryWriteRuns(g, rank, op')
  {
    forall e | e in g && !g[e].op.dedupable && e !in Scopes(g, rank, {}, Consumed(op'))
      ensures RunsWithItsOwner(op', Scope(g, rank, {}, e), e)
    {
      assert e in Writes(g) && e in Elements(orphans);
      AttachedRunsWithItsOwner(op, op', orphans, owner, Scope(g, rank, {}, e), e);
    }
  }

  // ----- the whole pass -----

  lemma {:induction false} RemapThenAttach(op: ObjectPlan, mid: ObjectPlan, op': ObjectPlan, remap: map<Id, Id>,
                                           orphans: seq<Id>, owner: map<Id, Id>)
    requires RemappedBy(op, mid, remap) && EffectsAttached(mid, op', orphans, owner)
    ensures RemappedBy(op, op', remap)
    decreases op
  {
    forall i | HasChild(op, i) && HasChild(op', i)
      ensures RemappedBy(Child(op, i), Child(op', i), remap)
    {
      assert HasChild(mid, i);
      RemapThenAttach(Child(op, i), Child(mid, i), Child(op', i), remap, orphans, owner);
    }
  }

  lemma {:induction false} RemapThenLayOut(op: ObjectPlan, mid: ObjectPlan, op': ObjectPlan, remap: map<Id, Id>)
    requires RemappedBy(op, mid, remap) && SameShape(mid, op')
    ensures RemappedBy(op, op', remap)
    decreases op
  {
    forall i | HasChild(op, i) && HasChild(op', i)
      ensures RemappedBy(Child(op, i), Child(op', i), remap)
    {
      assert HasChild(mid, i);
      RemapThenLayOut(Child(op, i), Child(mid, i), Child(op', i), remap);
    }
  }

  lemma {:induction false} ShapeKeepsLayers(op: ObjectPlan, op': ObjectPlan, depth: nat, e: Id, b: Id, k: nat)
    requires SameShape(op, op') && k <= |op.fields|
    ensures BoundsBelow(op', depth, k) == BoundsBelow(op, depth, k)
    ensures LayersBoundedBy(op', b, k) == LayersBoundedBy(op, b, k)
    ensures LayersRunning(op', e, k) == LayersRunning(op, e, k)
    ensures ConsumedBy(op', k) == ConsumedBy(op, k)
    decreases op, k
  {
    if k > 0 {
      ShapeKeepsLayers(op, op', depth, e, b, k - 1);
      if HasChild(op, k - 1) {
        var c := Child(op, k - 1);
        ShapeKeepsLayers(c, Child(op', k - 1), depth + 1, e, b, |c.fields|);
      }
    }
  }

  lemma LaidOutWritesRun(g: Graph, rank: Id -> nat, op: ObjectPlan, op': ObjectPlan)
    requires Ranked(g, rank) && SameShape(op, op') && Consumed(op) <= g.Keys && EveryWriteRuns(g, rank, op)
    ensures Consumed(op') == Consumed(op) && EveryWriteRuns(g, rank, op')
  {
    ShapeKeepsLayers(op, op', 0, op.parent, op.parent, |op.fields|);
    forall e | e in g && !g[e].op.dedupable && e !in Scopes(g, rank, {}, Consumed(op'))
      ensures RunsWithItsOwner(op', Scope(g, rank, {}, e), e)
    {
      var deps := Scope(g, rank, {}, e);
      var owner :| Owns(op, deps, owner) && LayersRunning(op, e, |op.fields|) == LayersBoundedBy(op, owner, |op.fields|) >= 1;
      ShapeKeepsLayers(op, op', 0, e, owner, |op.fields|);
      assert Bounds(op', 0) == Bounds(op, 0);
      assert Owns(op', deps, owner);
    }
  }

  lemma {:induction false} RemappedHasNoEffects(op: ObjectPlan, remap: map<Id, Id>)
    requires NoEffects(op)
    ensures NoEffects(RemapObjectPlan(op, remap))
    decreases op
  {
    var op' := RemapObjectPlan(op, remap);
    forall i | HasChild(op', i) ensures NoEffects(Child(op', i)) { RemappedHasNoEffects(Child(op, i), remap); }
  }

  /** Every step the planned tree consumes is live in the final plan, at the step the remap names, with its value. */
  ghost predicate ConsumedKeepValues<V>(g: Graph, g': Graph, op: ObjectPlan, remap: map<Id, Id>, sem: (Op, seq<V>) -> V)
  {
    Acyclic(g) && Acyclic(g') && forall s :: s in Consumed(op) ==>
      s in g && SendTo(remap, s) in g' && Denote(g', sem, SendTo(remap, s)) == Denote(g, sem, s)
  }

  lemma ShakenKeepsValues<V>(g: Graph, merged: Graph, keep: set<Id>, kept: Graph, op: ObjectPlan, mid: ObjectPlan,
                             remap: map<Id, Id>, sem: (Op, seq<V>) -> V)
    requires KeepsValues(g, merged, remap, sem) && Consumed(op) <= g.Keys && RemappedBy(op, mid, remap)
    requires keep <= merged.Keys && ClosedUpTo(merged, {}, keep) && Consumed(mid) <= keep
    requires kept == Restricted(merged, keep) && Acyclic(kept)
    ensures ConsumedKeepValues(g, kept, op, remap, sem)
  {
    ConsumedAfterRemap(op, mid, remap);
    forall s | s in Consumed(op)
      ensures SendTo(remap, s) in kept && Denote(kept, sem, SendTo(remap, s)) == Denote(g, sem, s)
    {
      assert SendTo(remap, s) in Consumed(mid);
      TrimKeepsValue(merged, keep, sem, SendTo(remap, s));
    }
  }

  lemma RemappedIsLive<V>(g: Graph, merged: Graph, op: ObjectPlan, remap: map<Id, Id>, sem: (Op, seq<V>) -> V)
    requires KeepsValues(g, merged, remap, sem) && StepsIn(g, op)
    ensures Consumed(op) <= g.Keys && Consumed(RemapObjectPlan(op, remap)) <= merged.Keys
  {
    ConsumedAreIn(g, op, |op.fields|);
    RemapIsRemappedBy(op, remap);
    ConsumedAfterRemap(op, RemapObjectPlan(op, remap), remap);
  }

  /** The merged plan, trimmed to a part that holds its own dependencies. */
  ghost predicate MergedAndTrimmed(g: Graph, g': Graph, remap: map<Id, Id>)
  {
    exists merged, keep :: Acyclic(merged) && Merged(merged) && Quotient(g, merged, remap) && keep <= merged.Keys && ClosedUpTo(merged, {}, keep) && g' == Restricted(merged, keep)
  }

  lemma NeededIsMergedAndTrimmed(g: Graph, merged: Graph, remap: map<Id, Id>, keep: set<Id>, g': Graph)
    requires Acyclic(merged) && Merged(merged) && Quotient(g, merged, remap) && keep <= merged.Keys && ClosedUpTo(merged, {}, keep) && g' == Restricted(merged, keep)
    ensures MergedAndTrimmed(g, g', remap)
  {
  }

  /** How the final plan and tree come from the planned ones: the script carried out, what it leaves merged along `fold`
      and trimmed, and the tree sent after the two in turn. */
  ghost predicate ComesFrom(start: Snapshot, script: seq<Rewrite>, op: ObjectPlan, g': Graph, op': ObjectPlan, sent: map<Id, Id>, fold: map<Id, Id>)
  {
    SentBy(start, script, sent) && MergedAndTrimmed(LiveAfter(start, script), g', fold) && RemappedBy(RemapObjectPlan(op, sent), op', fold)
  }

  /** The passes after the rewriting ones: tree-shake, attach the orphaned writes, hoist, populate. */
  method TrimAndLayOut(p: Plan, mid: ObjectPlan, hoist: bool, ghost op: ObjectPlan, ghost sent: map<Id, Id>) returns (op': ObjectPlan, ghost rank: Id -> nat)
    requires p.Valid() && p.dead == {} && Acyclic(p.nodes)
    requires Consumed(mid) <= p.nodes.Keys && NoEffects(mid) && Unannotated(mid) && RemappedBy(op, mid, sent)
    modifies p
    ensures p.Valid() && Ranked(old(p.nodes), rank) && p.nodes == Restricted(old(p.nodes), Needed(old(p.nodes), rank, Consumed(mid)))
    ensures Ranked(p.nodes, rank) && RemappedBy(op, op', sent) && LaidOut(p.nodes, rank, op', hoist)
    ensures Consumed(op') <= p.nodes.Keys && EveryWriteRuns(p.nodes, rank, op')
  {
    var attached;
    ghost var orphans, owner;
    attached, rank, orphans, owner := ShakeAndAttach(p, mid);
    RemapThenAttach(op, mid, attached, sent, orphans, owner);
    op' := LayOut(p.nodes, rank, attached, hoist);
    RemapThenLayOut(op, attached, op', sent);
    LaidOutWritesRun(p.nodes, rank, attached, op');
  }

  /** Trimming the merged plan to what the remapped tree needs keeps the value of all it consumes. */
  lemma TrimmedKeepsValues<V>(g: Graph, merged: Graph, rank: Id -> nat, g': Graph, op: ObjectPlan, mid: ObjectPlan, remap: map<Id, Id>, sem: (Op, seq<V>) -> V)
    requires Ranked(merged, rank) && KeepsValues(g, merged, remap, sem)
    requires Consumed(op) <= g.Keys && Consumed(mid) <= merged.Keys && RemappedBy(op, mid, remap)
    requires g' == Restricted(merged, Needed(merged, rank, Consumed(mid))) && Acyclic(g')
    ensures ConsumedKeepValues(g, g', op, remap, sem)
  {
    NeededIsClosed(merged, rank, Consumed(mid));
    ShakenKeepsValues(g, merged, Needed(merged, rank, Consumed(mid)), g', op, mid, remap, sem);
  }

  lemma TrimmedComesFrom(start: Snapshot, script: seq<Rewrite>, merged: Graph, rank: Id -> nat, roots: set<Id>, g': Graph, op: ObjectPlan, op': ObjectPlan,
                         sent: map<Id, Id>, fold: map<Id, Id>)
    requires Ranked(merged, rank) && Merged(merged) && SentBy(start, script, sent) && Quotient(LiveAfter(start, script), merged, fold)
    requires roots <= merged.Keys && g' == Restricted(merged, Needed(merged, rank, roots)) && RemappedBy(op, op', ComposeRemaps(sent, fold))
    ensures ComesFrom(start, script, op, g', op', sent, fold)
  {
    NeededIsClosed(merged, rank, roots);
    NeededIsMergedAndTrimmed(LiveAfter(start, script), merged, fold, Needed(merged, rank, roots), g');
    RemappedInTwo(op, op', sent, fold);
  }

  /** The remapped tree, before it is laid out. */
  lemma RemappedTree<V>(g: Graph, merged: Graph, op: ObjectPlan, remap: map<Id, Id>, sem: (Op, seq<V>) -> V)
    requires KeepsValues(g, merged, remap, sem) && StepsIn(g, op) && NoEffects(op) && Unannotated(op)
    ensures var mid := RemapObjectPlan(op, remap);
            RemappedBy(op, mid, remap) && NoEffects(mid) && Unannotated(mid) && Consumed(op) <= g.Keys && Consumed(mid) <= merged.Keys
  {
    RemapIsRemappedBy(op, remap);
    RemappedHasNoEffects(op, remap);
    RemappedIsLive(g, merged, op, remap, sem);
  }

  /** `finalize_plan`: optimize, deduplicate, remap the tree, tree-shake, attach the orphaned writes, hoist, populate.
      Whatever the optimize hooks replaced by equals, every consumed step keeps its value, every write still runs,
      and the tree is laid out over the plan that is left. */
  method FinalizePlan<V>(p: Plan, op: ObjectPlan, script: seq<Rewrite>, hoist: bool, ghost sem: (Op, seq<V>) -> V)
    returns (op': ObjectPlan, ghost remap: map<Id, Id>, ghost rank: Id -> nat, ghost sent: map<Id, Id>, ghost fold: map<Id, Id>)
    requires p.Valid() && p.Unswept() && p.dead == {} && Acyclic(p.nodes)
    requires Legal(Snapshot(p.nodes, {}, |p.steps|), script) && ValuePreserving(Snapshot(p.nodes, {}, |p.steps|), sem, script)
    requires StepsIn(p.nodes, op) && NoEffects(op) && Unannotated(op)
    modifies p
    ensures p.Valid() && Ranked(p.nodes, rank) && RemappedBy(op, op', remap)
    ensures ConsumedKeepValues(old(p.nodes), p.nodes, op, remap, sem)
    ensures LaidOut(p.nodes, rank, op', hoist)
    ensures Consumed(op') <= p.nodes.Keys && EveryWriteRuns(p.nodes, rank, op')
    ensures WritesKept(LiveAfter(Snapshot(old(p.nodes), {}, |old(p.steps)|), script), p.nodes)
    ensures remap == ComposeRemaps(sent, fold) && ComesFrom(Snapshot(old(p.nodes), {}, |old(p.steps)|), script, op, p.nodes, op', sent, fold)
  {
    ghost var start := Snapshot(p.nodes, {}, |p.steps|);
    var composed;
    composed, sent, fold := RewritePasses(p, script, sem);
    ghost var merged := p.nodes;
    var mid := RemapObjectPlan(op, composed);
    remap := composed;
    RemappedTree(start.nodes, merged, op, remap, sem);
    op', rank := TrimAndLayOut(p, mid, hoist, op, remap);
    TrimmedKeepsValues(start.nodes, merged, rank, p.nodes, op, mid, remap, sem);
    TrimmedComesFrom(start, script, merged, rank, Consumed(mid), p.nodes, op, op', sent, fold);
    WritesSurvive(LiveAfter(start, script), merged, fold, rank, Consumed(mid));
  }

  /** Neither merging nor trimming loses a write. */
  lemma WritesSurvive(live: Graph, merged: Graph, fold: map<Id, Id>, rank: Id -> nat, roots: set<Id>)
    requires Quotient(live, merged, fold) && Ranked(merged, rank) && roots <= merged.Keys
    ensures WritesKept(live, Restricted(merged, Needed(merged, rank, roots)))
  {
    NeededKeepsWrites(merged, rank, roots);
    forall e | e in live && !live[e].op.dedupable ensures e in merged && merged[e].op == live[e].op { assert ImageOf(live, merged, fold, e); }
  }

  /** Every write attached to a layer is on that layer's run list. */
  ghost predicate RunsItsWrites(g: Graph, op: ObjectPlan)
    decreases op
  {
    && (forall e :: e in op.effects && e in g && !g[e].op.dedupable && e != op.parent ==> e in op.ordered)
    && forall i :: HasChild(op, i) ==> RunsItsWrites(g, Child(op, i))
  }

  /** Hoisting never takes a write away from the bucket it was attached to. */
  lemma {:induction false} HoistedRunsItsWrites(g: Graph, rank: Id -> nat, op: ObjectPlan, above: set<Id>, isTop: bool)
    requires Ranked(g, rank) && StepsIn(g, op) && HoistedInIn(g, op) && Populated(g, rank, op) && Hoisted(g, rank, op, above, isTop)
    ensures RunsItsWrites(g, op)
    decreases op
  {
    ScopesAreClosed(g, rank, Cut(op), Elements(Targets(op)) + Elements(op.hoistedIn));
    forall e | e in op.effects && e in g && !g[e].op.dedupable && e != op.parent
      ensures e in op.ordered
    {
      assert e in Targets(op) && e in Elements(Targets(op));
      assert e !in Cut(op);
    }
    forall i | HasChild(op, i)
      ensures RunsItsWrites(g, Child(op, i))
    {
      HoistedRunsItsWrites(g, rank, Child(op, i), AboveChild(g, rank, op, above, Child(op, i).parent), false);
    }
  }
}
