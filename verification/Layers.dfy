/** The plan tree: one layer a bucket, its fields and their child layers; hoisting and layer population. */
module Layers {
  import opened Wrappers
  import opened Sequences
  import opened StepGraph
  import opened Ordering

  /** A field and, when its type leads to an object, the plan of the child bucket.  `isList` says whether a list stands
      between the two: then the child's objects are items, otherwise they are entries of the field's own column. */
  datatype FieldPlan = FieldPlan(name: string, step: Id, isList: bool, child: Option<ObjectPlan>)

  /** An object plan with its layer's boundary, effects, hoist annotations and run list. */
  datatype ObjectPlan = ObjectPlan(parent: Id, fields: seq<FieldPlan>, effects: seq<Id>,
                                   hoistedIn: seq<Id>, hoistedOut: set<Id>, ordered: seq<Id>)

  function FieldSteps(fields: seq<FieldPlan>): (r: seq<Id>)
    ensures |r| == |fields| && forall i :: 0 <= i < |fields| ==> r[i] == fields[i].step
  {
    seq(|fields|, i requires 0 <= i < |fields| => fields[i].step)
  }

  /** One field, whatever its child layers have become. */
  ghost predicate SameField(a: FieldPlan, b: FieldPlan)
  {
    a.name == b.name && a.step == b.step && a.isList == b.isList
  }

  ghost predicate HasChild(op: ObjectPlan, i: int)
  {
    0 <= i < |op.fields| && op.fields[i].child.Some?
  }

  ghost function Child(op: ObjectPlan, i: int): (c: ObjectPlan)
    requires HasChild(op, i)
    ensures c < op
  {
    op.fields[i].child.value
  }

  /** The steps the bucket must produce itself: its fields' steps and its orphaned side effects. */
  function Targets(op: ObjectPlan): seq<Id>
  {
    FieldSteps(op.fields) + op.effects
  }

  ghost predicate StepsIn(g: Graph, op: ObjectPlan)
    decreases op
  {
    && op.parent in g && (forall t :: t in Targets(op) ==> t in g)
    && forall i :: HasChild(op, i) ==> StepsIn(g, Child(op, i))
  }

  /** Two plans that differ in their annotations and run lists only. */
  ghost predicate SameShape(a: ObjectPlan, b: ObjectPlan)
    decreases a
  {
    && a.parent == b.parent && a.effects == b.effects && |a.fields| == |b.fields|
    && (forall i :: 0 <= i < |a.fields| ==> SameField(a.fields[i], b.fields[i]))
    && (forall i :: HasChild(a, i) <==> HasChild(b, i))
    && forall i :: HasChild(a, i) && HasChild(b, i) ==> SameShape(Child(a, i), Child(b, i))
  }

  /** A child layer is bounded by the step of the field it hangs off. */
  ghost predicate BoundedByFields(op: ObjectPlan)
    decreases op
  {
    forall i :: HasChild(op, i) ==> Child(op, i).parent == op.fields[i].step && BoundedByFields(Child(op, i))
  }

  lemma {:induction false} ShapeIsBoundedByFields(a: ObjectPlan, b: ObjectPlan)
    requires SameShape(a, b) && BoundedByFields(a)
    ensures BoundedByFields(b)
    decreases a
  {
    forall i | HasChild(b, i)
      ensures Child(b, i).parent == b.fields[i].step && BoundedByFields(Child(b, i))
    {
      assert HasChild(a, i);
      ShapeIsBoundedByFields(Child(a, i), Child(b, i));
    }
  }

  ghost predicate Unannotated(op: ObjectPlan)
    decreases op
  {
    && op.hoistedIn == [] && op.hoistedOut == {}
    && forall i :: HasChild(op, i) ==> Unannotated(Child(op, i))
  }

  // ----- hoisting -----

  /** Whether `step` may move to the layer above, where the columns of `liftableAbove` are at hand. */
  predicate IsHoistable(g: Graph, step: Id, liftableAbove: set<Id>)
    requires step in g
  {
    g[step].op.dedupable && g[step].op.hoistable && g[step].op.kind == Plain &&
    forall i :: 0 <= i < |g[step].deps| ==> g[step].deps[i] in liftableAbove
  }

  /** The steps the given fields' child layers sent up. */
  ghost function LiftedBy(fields: seq<FieldPlan>): set<Id>
  {
    set f, y | f in fields && f.child.Some? && y in f.child.value.hoistedOut :: y
  }

  /** What `op`'s bucket runs between its targets and everything produced at its boundary or above. */
  ghost function OwnSteps(g: Graph, rank: Id -> nat, op: ObjectPlan, above: set<Id>): set<Id>
    requires Ranked(g, rank) && StepsIn(g, op)
  {
    Scopes(g, rank, above + {op.parent}, Elements(Targets(op)))
  }

  /** What a child may treat as produced above it: all of this layer but the child's own boundary. */
  ghost function AboveChild(g: Graph, rank: Id -> nat, op: ObjectPlan, above: set<Id>, boundary: Id): set<Id>
    requires Ranked(g, rank) && StepsIn(g, op)
  {
    above + {op.parent} + OwnSteps(g, rank, op, above) - {boundary}
  }

  /** The annotations hoisting leaves, at every layer: exactly the hoistable steps among those the layer owns or
      received have left it, and it holds what its children lifted and it kept. */
  ghost predicate Hoisted(g: Graph, rank: Id -> nat, op: ObjectPlan, above: set<Id>, isTop: bool)
    requires Ranked(g, rank) && StepsIn(g, op)
    decreases op
  {
    && (forall y :: y in op.hoistedOut ==> y in g)
    && LiftedBy(op.fields) <= g.Keys
    && (isTop ==> op.hoistedOut == {})
    && (!isTop ==> forall y :: y in op.hoistedOut <==>
           y in OwnSteps(g, rank, op, above) + LiftedBy(op.fields) && IsHoistable(g, y, above + op.hoistedOut))
    && Elements(op.hoistedIn) == LiftedBy(op.fields) - OwnSteps(g, rank, op, above) - op.hoistedOut
    && forall i :: HasChild(op, i) ==>
         Hoisted(g, rank, Child(op, i), AboveChild(g, rank, op, above, Child(op, i).parent), false)
  }

  // ----- what hoisting lifts is fixed by the plan -----

  /** `s` can leave a layer that has `candidates` to give away: it is movable, and each dependency is produced above or
      can leave too. */
  ghost predicate Liftable(g: Graph, rank: Id -> nat, s: Id, candidates: set<Id>, above: set<Id>)
    requires Ranked(g, rank) && s in g
    decreases rank(s)
  {
    && g[s].op.dedupable && g[s].op.hoistable && g[s].op.kind == Plain
    && forall d :: d in g[s].deps ==> d in above || (d in candidates && Liftable(g, rank, d, candidates, above))
  }

  /** What the layer lifts out: of its own steps and those its children lift, the ones that can leave. */
  ghost function Lifts(g: Graph, rank: Id -> nat, op: ObjectPlan, above: set<Id>): (r: set<Id>)
    requires Ranked(g, rank) && StepsIn(g, op)
    ensures r <= g.Keys
    decreases op, 1
  {
    var candidates := OwnSteps(g, rank, op, above) + ChildLifts(g, rank, op, above);
    set s | s in candidates && Liftable(g, rank, s, candidates, above)
  }

  ghost function ChildLifts(g: Graph, rank: Id -> nat, op: ObjectPlan, above: set<Id>): (r: set<Id>)
    requires Ranked(g, rank) && StepsIn(g, op)
    ensures r <= g.Keys
    decreases op, 0
  {
    set i, y | 0 <= i < |op.fields| && HasChild(op, i) && y in Lifts(g, rank, Child(op, i), AboveChild(g, rank, op, above, Child(op, i).parent)) :: y
  }

  lemma SameTargets(a: ObjectPlan, b: ObjectPlan)
    requires SameShape(a, b)
    ensures Targets(a) == Targets(b)
  {
    assert FieldSteps(a.fields) == FieldSteps(b.fields);
  }

  /** The annotations hoisting leaves are the ones the plan fixed beforehand. */
  lemma {:induction false} LiftsAreHoistedOut(g: Graph, rank: Id -> nat, plain: ObjectPlan, hoisted: ObjectPlan, above: set<Id>)
    requires Ranked(g, rank) && StepsIn(g, plain) && StepsIn(g, hoisted) && SameShape(plain, hoisted) && Hoisted(g, rank, hoisted, above, false)
    ensures hoisted.hoistedOut == Lifts(g, rank, plain, above)
    decreases plain
  {
    SameTargets(plain, hoisted);
    ChildLiftsAreLifted(g, rank, plain, hoisted, above);
    var candidates := OwnSteps(g, rank, plain, above) + ChildLifts(g, rank, plain, above);
    forall s | s in candidates
      ensures s in hoisted.hoistedOut <==> Liftable(g, rank, s, candidates, above)
    {
      LiftableIsLifted(g, rank, s, candidates, above, hoisted.hoistedOut);
    }
  }

  lemma {:induction false} ChildLiftsAreLifted(g: Graph, rank: Id -> nat, plain: ObjectPlan, hoisted: ObjectPlan, above: set<Id>)
    requires Ranked(g, rank) && StepsIn(g, plain) && StepsIn(g, hoisted) && SameShape(plain, hoisted) && Targets(plain) == Targets(hoisted)
    requires forall i :: HasChild(hoisted, i) ==> Hoisted(g, rank, Child(hoisted, i), AboveChild(g, rank, hoisted, above, Child(hoisted, i).parent), false)
    ensures LiftedBy(hoisted.fields) == ChildLifts(g, rank, plain, above)
    decreases plain, 0
  {
    forall i | HasChild(plain, i)
      ensures HasChild(hoisted, i)
      ensures Child(hoisted, i).hoistedOut == Lifts(g, rank, Child(plain, i), AboveChild(g, rank, plain, above, Child(plain, i).parent))
    {
      assert HasChild(hoisted, i);
      LiftsAreHoistedOut(g, rank, Child(plain, i), Child(hoisted, i), AboveChild(g, rank, plain, above, Child(plain, i).parent));
    }
    forall y | y in LiftedBy(hoisted.fields)
      ensures y in ChildLifts(g, rank, plain, above)
    {
      var f :| f in hoisted.fields && f.child.Some? && y in f.child.value.hoistedOut;
      var i :| 0 <= i < |hoisted.fields| && hoisted.fields[i] == f;
      assert HasChild(hoisted, i) && HasChild(plain, i);
    }
    forall y | y in ChildLifts(g, rank, plain, above)
      ensures y in LiftedBy(hoisted.fields)
    {
      var i :| HasChild(plain, i) && y in Lifts(g, rank, Child(plain, i), AboveChild(g, rank, plain, above, Child(plain, i).parent));
      assert HasChild(hoisted, i) && hoisted.fields[i] in hoisted.fields;
    }
  }

  /** What is lifted out among the candidates is fixed by the ranks: there is one such set. */
  lemma {:induction false} LiftableIsLifted(g: Graph, rank: Id -> nat, s: Id, candidates: set<Id>, above: set<Id>, lifted: set<Id>)
    requires Ranked(g, rank) && s in candidates && candidates <= g.Keys && lifted <= g.Keys
    requires forall y :: y in lifted <==> y in candidates && IsHoistable(g, y, above + lifted)
    ensures s in lifted <==> Liftable(g, rank, s, candidates, above)
    decreases rank(s)
  {
    forall d | d in g[s].deps && d in candidates { LiftableIsLifted(g, rank, d, candidates, above, lifted); }
    assert (forall i :: 0 <= i < |g[s].deps| ==> g[s].deps[i] in above + lifted) <==> (forall d :: d in g[s].deps ==> d in above + lifted);
  }

  lemma HoistableMore(g: Graph, s: Id, above: set<Id>, more: set<Id>)
    requires s in g && IsHoistable(g, s, above) && above <= more
    ensures IsHoistable(g, s, more)
  {
  }

  /** One sweep of the lift loop, judged against what was produced above when it began. */
  method LiftPass(g: Graph, own: seq<Id>, above: set<Id>, was: seq<Id>) returns (liftOut: seq<Id>, changed: bool)
    requires (forall s :: s in own ==> s in g) && (forall s :: s in was ==> s in own)
    requires forall s :: s in was ==> IsHoistable(g, s, above + Elements(was))
    ensures forall s :: s in was ==> s in liftOut
    ensures forall s :: s in liftOut ==> s in own && IsHoistable(g, s, above + Elements(liftOut))
    ensures if changed then exists s :: s in liftOut && s !in was else liftOut == was
    ensures forall s :: s in own && s !in liftOut ==> !IsHoistable(g, s, above + Elements(was))
  {
    liftOut, changed := was, false;
    var liftableAbove := above + Elements(was);
    for i := 0 to |own|
      invariant forall s :: s in was ==> s in liftOut
      invariant forall s :: s in liftOut ==> s in own && IsHoistable(g, s, liftableAbove)
      invariant if changed then exists s :: s in liftOut && s !in was else liftOut == was
      invariant forall j :: 0 <= j < i && own[j] !in liftOut ==> !IsHoistable(g, own[j], liftableAbove)
    {
      if own[i] !in liftOut && IsHoistable(g, own[i], liftableAbove) {
        liftOut, changed := liftOut + [own[i]], true;
        assert own[i] in liftOut;
      }
    }
    forall s | s in liftOut
      ensures IsHoistable(g, s, above + Elements(liftOut))
    {
      HoistableMore(g, s, liftableAbove, above + Elements(liftOut));
    }
  }

  /** The source's `while changed` loop: lifts until nothing the layer owns can still move. */
  method LiftToFixpoint(g: Graph, own: seq<Id>, above: set<Id>) returns (liftOut: seq<Id>)
    requires forall s :: s in own ==> s in g
    ensures forall s :: s in liftOut <==> s in own && IsHoistable(g, s, above + Elements(liftOut))
  {
    liftOut := [];
    var changed := true;
    while changed
      invariant forall s :: s in liftOut ==> s in own && IsHoistable(g, s, above + Elements(liftOut))
      invariant !changed ==> forall s :: s in own && s !in liftOut ==> !IsHoistable(g, s, above + Elements(liftOut))
      decreases Elements(own) - Elements(liftOut), changed
    {
      liftOut, changed := LiftPass(g, own, above, liftOut);
    }
  }

  function Staying(s: seq<Id>, drop: seq<Id>): (r: seq<Id>)
    ensures Elements(r) == Elements(s) - Elements(drop)
  {
    Keep(s, x => x !in drop)
  }

  /** Appends the steps a child sent up that this layer does not own yet. */
  method Receive(own: seq<Id>, hoistedIn: seq<Id>, lifted: seq<Id>) returns (own': seq<Id>, hoistedIn': seq<Id>)
    ensures Elements(own') == Elements(own) + Elements(lifted)
    ensures Elements(hoistedIn') == Elements(hoistedIn) + (Elements(lifted) - Elements(own))
  {
    own', hoistedIn' := own, hoistedIn;
    for i := 0 to |lifted|
      invariant Elements(own') == Elements(own) + Elements(lifted[..i])
      invariant Elements(hoistedIn') == Elements(hoistedIn) + (Elements(lifted[..i]) - Elements(own))
    {
      ElementsOfPrefix(lifted, i);
      if lifted[i] !in own' {
        ElementsOfAppend(own', lifted[i]);
        ElementsOfAppend(hoistedIn', lifted[i]);
        own', hoistedIn' := own' + [lifted[i]], hoistedIn' + [lifted[i]];
      }
    }
    assert lifted[..|lifted|] == lifted;
  }

  /** The fields rebuilt so far are the planned ones with their child layers hoisted. */
  ghost predicate FieldsHoisted(g: Graph, rank: Id -> nat, op: ObjectPlan, above: set<Id>, done: seq<FieldPlan>)
    requires Ranked(g, rank) && StepsIn(g, op)
  {
    && |done| <= |op.fields|
    && forall i :: 0 <= i < |done| ==> FieldHoisted(g, rank, op, above, op.fields[i], done[i])
  }

  ghost predicate FieldHoisted(g: Graph, rank: Id -> nat, op: ObjectPlan, above: set<Id>, before: FieldPlan, after: FieldPlan)
    requires Ranked(g, rank) && StepsIn(g, op)
  {
    && SameField(before, after) && (after.child.Some? <==> before.child.Some?)
    && (after.child.Some? ==>
          && SameShape(before.child.value, after.child.value) && StepsIn(g, after.child.value)
          && Hoisted(g, rank, after.child.value, AboveChild(g, rank, op, above, after.child.value.parent), false))
  }

  lemma LiftedByAppend(fields: seq<FieldPlan>, f: FieldPlan)
    ensures LiftedBy(fields + [f]) == LiftedBy(fields) + SentUp(f)
  {
  }

  lemma ReceivedSets(own0: set<Id>, up: set<Id>, more: set<Id>)
    ensures own0 + up + more == own0 + (up + more)
    ensures (up - own0) + (more - (own0 + up)) == (up + more) - own0
  {
  }

  function SentUp(f: FieldPlan): set<Id>
  {
    if f.child.Some? then f.child.value.hoistedOut else {}
  }

  method HoistField(g: Graph, ghost rank: Id -> nat, op: ObjectPlan, ghost above: set<Id>, availableHere: set<Id>, i: nat)
    returns (fp: FieldPlan, up: seq<Id>)
    requires Ranked(g, rank) && StepsIn(g, op) && Unannotated(op) && i < |op.fields|
    requires availableHere == above + {op.parent} + OwnSteps(g, rank, op, above)
    ensures FieldHoisted(g, rank, op, above, op.fields[i], fp)
    ensures Elements(up) == SentUp(fp) && SentUp(fp) <= g.Keys
    decreases op, 0
  {
    fp, up := op.fields[i], [];
    if fp.child.Some? {
      var child := fp.child.value;
      assert HasChild(op, i) && Child(op, i) == child;
      var child', lifted := HoistLayer(g, rank, child, availableHere - {child.parent}, false);
      fp, up := fp.(child := Some(child')), lifted;
    }
  }

  lemma LayerIsHoisted(g: Graph, rank: Id -> nat, op: ObjectPlan, above: set<Id>, isTop: bool, op': ObjectPlan)
    requires Ranked(g, rank) && StepsIn(g, op)
    requires op'.parent == op.parent && op'.effects == op.effects && |op'.fields| == |op.fields|
    requires FieldsHoisted(g, rank, op, above, op'.fields)
    requires LiftedBy(op'.fields) <= g.Keys
    requires isTop ==> op'.hoistedOut == {}
    requires !isTop ==> forall y :: y in op'.hoistedOut <==>
               y in OwnSteps(g, rank, op, above) + LiftedBy(op'.fields) && IsHoistable(g, y, above + op'.hoistedOut)
    requires Elements(op'.hoistedIn) == LiftedBy(op'.fields) - OwnSteps(g, rank, op, above) - op'.hoistedOut
    ensures SameShape(op, op') && StepsIn(g, op') && Hoisted(g, rank, op', above, isTop)
  {
    assert forall i :: 0 <= i < |op.fields| ==> FieldHoisted(g, rank, op, above, op.fields[i], op'.fields[i]);
    assert FieldSteps(op'.fields) == FieldSteps(op.fields);
    assert Targets(op') == Targets(op);
    assert forall i :: HasChild(op, i) <==> HasChild(op', i);
    assert SameShape(op, op');
    forall i | HasChild(op', i)
      ensures StepsIn(g, Child(op', i))
    {
      assert FieldHoisted(g, rank, op, above, op.fields[i], op'.fields[i]);
    }
    assert StepsIn(g, op');
    assert OwnSteps(g, rank, op', above) == OwnSteps(g, rank, op, above);
    forall i | HasChild(op', i)
      ensures Hoisted(g, rank, Child(op', i), AboveChild(g, rank, op', above, Child(op', i).parent), false)
    {
      assert FieldHoisted(g, rank, op, above, op.fields[i], op'.fields[i]);
    }
  }

  /** The children first: what they lift joins this layer's own steps. */
  method HoistFields(g: Graph, ghost rank: Id -> nat, op: ObjectPlan, above: set<Id>, ownSteps: seq<Id>)
    returns (fields: seq<FieldPlan>, own: seq<Id>, hoistedIn: seq<Id>)
    requires Ranked(g, rank) && StepsIn(g, op) && Unannotated(op) && Elements(ownSteps) == OwnSteps(g, rank, op, above)
    ensures |fields| == |op.fields| && Received(g, rank, op, above, fields, own, hoistedIn)
    decreases op, 1
  {
    var availableHere := above + {op.parent} + Elements(ownSteps);
    fields, own, hoistedIn := [], ownSteps, op.hoistedIn;
    NothingReceived(g, rank, op, above, own, hoistedIn);
    for i := 0 to |op.fields|
      invariant |fields| == i && Received(g, rank, op, above, fields, own, hoistedIn)
    {
      var fp, up := HoistField(g, rank, op, above, availableHere, i);
      var more, moreIn := Receive(own, hoistedIn, up);
      OneMoreReceived(g, rank, op, above, fields, own, hoistedIn, fp, more, moreIn);
      fields, own, hoistedIn := fields + [fp], more, moreIn;
    }
  }

  lemma OneMoreReceived(g: Graph, rank: Id -> nat, op: ObjectPlan, above: set<Id>, fields: seq<FieldPlan>, own: seq<Id>, hoistedIn: seq<Id>,
                        fp: FieldPlan, more: seq<Id>, moreIn: seq<Id>)
    requires Ranked(g, rank) && StepsIn(g, op) && Received(g, rank, op, above, fields, own, hoistedIn) && |fields| < |op.fields|
    requires FieldHoisted(g, rank, op, above, op.fields[|fields|], fp) && SentUp(fp) <= g.Keys
    requires Elements(more) == Elements(own) + SentUp(fp) && Elements(moreIn) == Elements(hoistedIn) + (SentUp(fp) - Elements(own))
    ensures Received(g, rank, op, above, fields + [fp], more, moreIn)
  {
    ReceivedSets(OwnSteps(g, rank, op, above), LiftedBy(fields), SentUp(fp));
    LiftedByAppend(fields, fp);
    OneMoreHoisted(g, rank, op, above, fields, fp);
  }

  lemma OneMoreHoisted(g: Graph, rank: Id -> nat, op: ObjectPlan, above: set<Id>, fields: seq<FieldPlan>, fp: FieldPlan)
    requires Ranked(g, rank) && StepsIn(g, op) && FieldsHoisted(g, rank, op, above, fields) && |fields| < |op.fields|
    requires FieldHoisted(g, rank, op, above, op.fields[|fields|], fp)
    ensures FieldsHoisted(g, rank, op, above, fields + [fp])
  {
  }

  /** What this layer holds once the given fields have been hoisted. */
  ghost predicate Received(g: Graph, rank: Id -> nat, op: ObjectPlan, above: set<Id>, fields: seq<FieldPlan>, own: seq<Id>, hoistedIn: seq<Id>)
    requires Ranked(g, rank) && StepsIn(g, op)
  {
    && FieldsHoisted(g, rank, op, above, fields)
    && Elements(own) == OwnSteps(g, rank, op, above) + LiftedBy(fields)
    && Elements(hoistedIn) == LiftedBy(fields) - OwnSteps(g, rank, op, above)
    && LiftedBy(fields) <= g.Keys
  }

  lemma NothingReceived(g: Graph, rank: Id -> nat, op: ObjectPlan, above: set<Id>, own: seq<Id>, hoistedIn: seq<Id>)
    requires Ranked(g, rank) && StepsIn(g, op) && Elements(own) == OwnSteps(g, rank, op, above) && hoistedIn == []
    ensures Received(g, rank, op, above, [], own, hoistedIn)
  {
    assert LiftedBy([]) == {};
  }

  /** `_hoist_layer`: children first, then whatever this layer owns or received and can still send on. */
  method HoistLayer(g: Graph, ghost rank: Id -> nat, op: ObjectPlan, above: set<Id>, isTop: bool)
    returns (op': ObjectPlan, lifted: seq<Id>)
    requires Ranked(g, rank) && StepsIn(g, op) && Unannotated(op)
    ensures SameShape(op, op') && StepsIn(g, op') && Hoisted(g, rank, op', above, isTop)
    ensures Elements(lifted) == op'.hoistedOut
    decreases op, 2
  {
    var hereBoundary := above + {op.parent};
    var own := OrderStepsWithin(g, rank, Targets(op), hereBoundary);
    var fields, hoistedIn;
    fields, own, hoistedIn := HoistFields(g, rank, op, above, own);
    lifted := [];
    if !isTop {
      lifted := LiftToFixpoint(g, own, above);
    }
    var stays := Staying(hoistedIn, lifted);
    op' := op.(fields := fields, hoistedIn := stays, hoistedOut := op.hoistedOut + Elements(lifted));
    LayerIsHoisted(g, rank, op, above, isTop, op');
  }

  /** `hoist_steps`: the operation's top layer receives but never lifts. */
  method HoistSteps(g: Graph, ghost rank: Id -> nat, op: ObjectPlan) returns (op': ObjectPlan)
    requires Ranked(g, rank) && StepsIn(g, op) && Unannotated(op)
    ensures SameShape(op, op') && StepsIn(g, op') && Hoisted(g, rank, op', {}, true) && LiftsMovable(g, op')
  {
    var lifted;
    op', lifted := HoistLayer(g, rank, op, {}, true);
    HoistedLiftsMovable(g, rank, op', {}, true);
  }

  // ----- layer population -----

  /** What the bucket's walk stops at: its boundary and the steps lifted out of it. */
  function Cut(op: ObjectPlan): set<Id>
  {
    {op.parent} + op.hoistedOut
  }

  ghost predicate SameAnnotations(a: ObjectPlan, b: ObjectPlan)
    requires SameShape(a, b)
    decreases a
  {
    && a.hoistedIn == b.hoistedIn && a.hoistedOut == b.hoistedOut
    && forall i :: HasChild(a, i) && HasChild(b, i) ==> SameAnnotations(Child(a, i), Child(b, i))
  }

  ghost predicate HoistedInIn(g: Graph, op: ObjectPlan)
    decreases op
  {
    && (forall s :: s in op.hoistedIn ==> s in g)
    && forall i :: HasChild(op, i) ==> HoistedInIn(g, Child(op, i))
  }

  /** Every layer's run list: exactly what its targets and the steps lifted into it need down to the cut,
      dependencies first. */
  ghost predicate Populated(g: Graph, rank: Id -> nat, op: ObjectPlan)
    requires Ranked(g, rank) && StepsIn(g, op) && HoistedInIn(g, op)
    decreases op
  {
    && Distinct(op.ordered) && DepsFirst(g, Cut(op), op.ordered)
    && Elements(op.ordered) == Scopes(g, rank, Cut(op), Elements(Targets(op)) + Elements(op.hoistedIn))
    && forall i :: HasChild(op, i) ==> Populated(g, rank, Child(op, i))
  }

  ghost predicate FieldPopulated(g: Graph, rank: Id -> nat, before: FieldPlan, after: FieldPlan)
    requires Ranked(g, rank)
  {
    && SameField(before, after) && (after.child.Some? <==> before.child.Some?)
    && (after.child.Some? ==> LayerPopulated(g, rank, before.child.value, after.child.value))
  }

  ghost predicate LayerPopulated(g: Graph, rank: Id -> nat, before: ObjectPlan, after: ObjectPlan)
    requires Ranked(g, rank)
  {
    && SameShape(before, after) && SameAnnotations(before, after)
    && StepsIn(g, after) && HoistedInIn(g, after) && Populated(g, rank, after)
  }

  lemma LayerIsPopulated(g: Graph, rank: Id -> nat, op: ObjectPlan, op': ObjectPlan)
    requires Ranked(g, rank) && StepsIn(g, op) && HoistedInIn(g, op)
    requires op'.parent == op.parent && op'.effects == op.effects && |op'.fields| == |op.fields|
    requires op'.hoistedIn == op.hoistedIn && op'.hoistedOut == op.hoistedOut
    requires forall i :: 0 <= i < |op.fields| ==> FieldPopulated(g, rank, op.fields[i], op'.fields[i])
    requires Distinct(op'.ordered) && DepsFirst(g, Cut(op), op'.ordered)
    requires Elements(op'.ordered) == Scopes(g, rank, Cut(op), Elements(Targets(op)) + Elements(op.hoistedIn))
    ensures LayerPopulated(g, rank, op, op')
  {
    assert FieldSteps(op'.fields) == FieldSteps(op.fields);
    assert Targets(op') == Targets(op);
    assert forall i :: HasChild(op, i) <==> HasChild(op', i);
    forall i | HasChild(op', i)
      ensures LayerPopulated(g, rank, Child(op, i), Child(op', i))
    {
      assert FieldPopulated(g, rank, op.fields[i], op'.fields[i]);
    }
  }

  /** `populate_layers`. */
  method PopulateLayers(g: Graph, ghost rank: Id -> nat, op: ObjectPlan) returns (op': ObjectPlan)
    requires Ranked(g, rank) && StepsIn(g, op) && HoistedInIn(g, op)
    ensures LayerPopulated(g, rank, op, op')
    decreases op
  {
    var fields: seq<FieldPlan> := [];
    for i := 0 to |op.fields|
      invariant |fields| == i && forall j :: 0 <= j < i ==> FieldPopulated(g, rank, op.fields[j], fields[j])
    {
      var fp := op.fields[i];
      if fp.child.Some? {
        assert HasChild(op, i) && Child(op, i) == fp.child.value;
        var child := PopulateLayers(g, rank, fp.child.value);
        fp := fp.(child := Some(child));
      }
      fields := fields + [fp];
    }
    var run := Targets(op) + op.hoistedIn;
    var ordered := [];
    if run != [] {
      ordered := OrderStepsWithin(g, rank, run, Cut(op));
    }
    assert Elements(run) == Elements(Targets(op)) + Elements(op.hoistedIn);
    op' := op.(fields := fields, ordered := ordered);
    LayerIsPopulated(g, rank, op, op');
  }

  // ----- what hoisting never moves -----

  /** Only a movable plain step without side effects leaves a layer, and none that reads the layer's own objects. */
  ghost predicate LiftsMovable(g: Graph, op: ObjectPlan)
    decreases op
  {
    && (forall s :: s in op.hoistedOut ==>
          s in g && g[s].op.hoistable && g[s].op.dedupable && g[s].op.kind == Plain && op.parent !in g[s].deps && s != op.parent)
    && forall i :: HasChild(op, i) ==> LiftsMovable(g, Child(op, i))
  }

  lemma {:induction false} HoistedLiftsMovable(g: Graph, rank: Id -> nat, op: ObjectPlan, above: set<Id>, isTop: bool)
    requires Ranked(g, rank) && StepsIn(g, op) && Hoisted(g, rank, op, above, isTop) && (isTop || op.parent !in above)
    ensures LiftsMovable(g, op)
    decreases op
  {
    if !isTop {
      LiftedIsNew(g, rank, op, above);
      forall s | s in op.hoistedOut
        ensures g[s].op.hoistable && g[s].op.dedupable && g[s].op.kind == Plain && op.parent !in g[s].deps && s != op.parent
      {
        assert IsHoistable(g, s, above + op.hoistedOut);
      }
    }
    forall i | HasChild(op, i)
      ensures LiftsMovable(g, Child(op, i))
    {
      HoistedLiftsMovable(g, rank, Child(op, i), AboveChild(g, rank, op, above, Child(op, i).parent), false);
    }
  }

  // ----- what hoisting and population leave runnable -----

  /** Every column a layer reads is produced by its run list or seeded at its boundary, and every column a child
      reads from above is at hand in the layer above it. */
  ghost predicate Runnable(g: Graph, op: ObjectPlan)
    decreases op
  {
    && (forall s :: s in op.ordered ==> s in g)
    && DepsFirst(g, Cut(op), op.ordered)
    && (forall s :: s in op.ordered ==> s !in Cut(op))
    && (forall i :: 0 <= i < |op.fields| ==> op.fields[i].step in op.ordered || op.fields[i].step in Cut(op))
    && (forall i, y :: HasChild(op, i) && y in Child(op, i).hoistedOut ==> y in op.ordered || y in op.hoistedOut)
    && (forall i :: HasChild(op, i) ==> Runnable(g, Child(op, i)))
  }

  /** A lifted step is new to the layer that receives it: neither its boundary, nor anything above, nor its own. */
  lemma {:induction false} LiftedIsNew(g: Graph, rank: Id -> nat, op: ObjectPlan, above: set<Id>)
    requires Ranked(g, rank) && StepsIn(g, op) && Hoisted(g, rank, op, above, false)
    ensures op.hoistedOut !! above + {op.parent}
    decreases op
  {
    forall y | y in op.hoistedOut
      ensures y !in above + {op.parent}
    {
      if y !in OwnSteps(g, rank, op, above) {
        var f :| f in op.fields && f.child.Some? && y in f.child.value.hoistedOut;
        var i :| 0 <= i < |op.fields| && op.fields[i] == f;
        assert HasChild(op, i);
        LiftedIsNew(g, rank, Child(op, i), AboveChild(g, rank, op, above, Child(op, i).parent));
      }
    }
  }

  lemma {:induction false} HoistedIsRunnable(g: Graph, rank: Id -> nat, op: ObjectPlan, above: set<Id>, isTop: bool)
    requires Ranked(g, rank) && StepsIn(g, op) && HoistedInIn(g, op)
    requires Hoisted(g, rank, op, above, isTop) && Populated(g, rank, op)
    ensures Runnable(g, op)
    decreases op
  {
    var targets := Elements(Targets(op)) + Elements(op.hoistedIn);
    ScopesAreClosed(g, rank, Cut(op), targets);
    forall i | 0 <= i < |op.fields|
      ensures op.fields[i].step in op.ordered || op.fields[i].step in Cut(op)
    {
      assert FieldSteps(op.fields)[i] == op.fields[i].step;
      assert Targets(op)[i] == op.fields[i].step;
      assert op.fields[i].step in targets;
    }
    forall i, y | HasChild(op, i) && y in Child(op, i).hoistedOut
      ensures y in op.ordered || y in op.hoistedOut
    {
      var c := Child(op, i);
      LiftedIsNew(g, rank, c, AboveChild(g, rank, op, above, c.parent));
      assert op.fields[i] in op.fields && y in LiftedBy(op.fields);
      if y !in op.hoistedOut {
        assert y in Elements(op.hoistedIn) && y in targets;
        assert y !in Cut(op);
      }
    }
    forall i | HasChild(op, i)
      ensures Runnable(g, Child(op, i))
    {
      var c := Child(op, i);
      HoistedIsRunnable(g, rank, c, AboveChild(g, rank, op, above, c.parent), false);
    }
  }
}
