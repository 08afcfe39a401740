/** The optimize loop: each round asks every live step's hook, dependencies first, what to replace, until a round asks for
    nothing or the rounds run out. */
module OptimizeRounds {
  import opened Sequences
  import opened StepGraph
  import opened Ordering
  import opened Dag

  const MAX_OPTIMIZATION_LOOPS: nat := 1000

  /** What a step's hook asks for in the plan as it stands: the side replacements it records, then its own. */
  type Hook = (Snapshot, Id) -> seq<Rewrite>

  ghost predicate Lawful(hook: Hook)
  {
    forall now: Snapshot, s: Id :: s in LiveOf(now.nodes, now.dead) ==> Legal(now, hook(now, s))
  }

  function StateOf(p: Plan): Snapshot
    reads p
  {
    Snapshot(p.nodes, p.dead, |p.steps|)
  }

  /** No hook has anything left to replace. */
  ghost predicate Settled(hook: Hook, now: Snapshot)
  {
    forall s :: s in LiveOf(now.nodes, now.dead) ==> hook(now, s) == []
  }

  lemma {:induction false} OneMoreRewrite(now: Snapshot, r: map<Id, Id>, script: seq<Rewrite>, w: Rewrite)
    requires Legal(now, script) && Allowed(After(now, script), w)
    ensures Legal(now, script + [w]) && After(now, script + [w]) == Rewritten(After(now, script), w)
    ensures var to := Survivor(w, After(now, script).count);
            Images(now, r, script + [w]) == Redirected(WithFresh(Images(now, r, script), w, to), w.gone, to)
    decreases |script|
  {
    if script == [] {
      assert script + [w] == [w];
    } else {
      var v := script[0];
      var to := Survivor(v, now.count);
      OneMoreRewrite(Rewritten(now, v), Redirected(WithFresh(r, v, to), v.gone, to), script[1..], w);
      assert (script + [w])[1..] == script[1..] + [w] && (script + [w])[0] == v;
    }
  }

  /** The script so far leads from the start to here, and its chains are in `merged`.  One part, so that the methods below
      carry the whole without looking into it. */
  datatype Part = Whole

  ghost predicate TracedIn(part: Part, start: Snapshot, script: seq<Rewrite>, now: Snapshot, merged: map<Id, Id>, r: map<Id, Id>, turn: map<Id, nat>)
  {
    Legal(start, script) && Optimizing(start, script, |script|, now, merged, r, turn)
  }

  ghost predicate Traced(start: Snapshot, script: seq<Rewrite>, now: Snapshot, merged: map<Id, Id>, r: map<Id, Id>, turn: map<Id, nat>)
  {
    forall part: Part :: TracedIn(part, start, script, now, merged, r, turn)
  }

  lemma TraceStarts(now: Snapshot)
    requires now.dead == {}
    ensures Traced(now, [], now, map[], Identity(now.nodes), map[])
  {
    forall part: Part ensures TracedIn(part, now, [], now, map[], Identity(now.nodes), map[]) {}
  }

  lemma ScriptGrows(start: Snapshot, script: seq<Rewrite>, now: Snapshot, r: map<Id, Id>, w: Rewrite)
    requires Legal(start, script) && now == After(start, script) && r == Images(start, Identity(start.nodes), script) && Allowed(now, w)
    ensures var to := Survivor(w, now.count);
            && Legal(start, script + [w]) && Rewritten(now, w) == After(start, script + [w])
            && Redirected(WithFresh(r, w, to), w.gone, to) == Images(start, Identity(start.nodes), script + [w])
  {
    OneMoreRewrite(start, Identity(start.nodes), script, w);
  }

  /** A script carried out to its end. */
  lemma TraceIs(start: Snapshot, script: seq<Rewrite>, now: Snapshot, merged: map<Id, Id>, r: map<Id, Id>, turn: map<Id, nat>)
    requires Legal(start, script) && now == After(start, script) && r == Images(start, Identity(start.nodes), script)
    requires Chains(merged, r, turn, |script|, now.nodes, now.dead)
    ensures Traced(start, script, now, merged, r, turn)
  {
    assert script[|script|..] == [];
    assert Optimizing(start, script, |script|, now, merged, r, turn);
    forall part: Part ensures TracedIn(part, start, script, now, merged, r, turn) {}
  }

  lemma TraceGoesOn(start: Snapshot, script: seq<Rewrite>, now: Snapshot, merged: map<Id, Id>, r: map<Id, Id>, turn: map<Id, nat>, w: Rewrite)
    requires Traced(start, script, now, merged, r, turn) && Allowed(now, w)
    ensures var to := Survivor(w, now.count);
            Traced(start, script + [w], Rewritten(now, w), merged[w.gone := to], Redirected(WithFresh(r, w, to), w.gone, to), turn[w.gone := |script|])
  {
    var to := Survivor(w, now.count);
    TraceEnds(start, script, now, merged, r, turn);
    ScriptGrows(start, script, now, r, w);
    ChainsGoOn(now, merged, r, turn, |script|, w);
    TraceIs(start, script + [w], Rewritten(now, w), merged[w.gone := to], Redirected(WithFresh(r, w, to), w.gone, to), turn[w.gone := |script|]);
  }

  lemma TraceEnds(start: Snapshot, script: seq<Rewrite>, end: Snapshot, merged: map<Id, Id>, r: map<Id, Id>, turn: map<Id, nat>)
    requires Traced(start, script, end, merged, r, turn)
    ensures Legal(start, script) && end == After(start, script) && r == Images(start, Identity(start.nodes), script)
    ensures merged.Keys == end.dead && r.Keys == end.nodes.Keys && Chains(merged, r, turn, |script|, end.nodes, end.dead)
    ensures forall s :: s in r ==> r[s] in LiveOf(end.nodes, end.dead) && (s in LiveOf(end.nodes, end.dead) ==> r[s] == s)
  {
    assert TracedIn(Whole, start, script, end, merged, r, turn);
    OptimizedAll(start, script, end, merged, r, turn);
  }

  /** Everything asked so far has been carried out. */
  ghost predicate Carried(p: Plan, start: Snapshot, script: seq<Rewrite>, merged: map<Id, Id>, r: map<Id, Id>, turn: map<Id, nat>)
    reads p
  {
    p.Valid() && p.Unswept() && Traced(start, script, StateOf(p), merged, r, turn)
  }

  method CarryOut(p: Plan, w: Rewrite, ghost start: Snapshot, ghost script: seq<Rewrite>, merged: map<Id, Id>, ghost r: map<Id, Id>, ghost turn: map<Id, nat>)
    returns (merged': map<Id, Id>, ghost r': map<Id, Id>, ghost turn': map<Id, nat>)
    requires Carried(p, start, script, merged, r, turn) && Allowed(StateOf(p), w)
    modifies p
    ensures Carried(p, start, script + [w], merged', r', turn') && StateOf(p) == Rewritten(old(StateOf(p)), w)
  {
    var to := Survivor(w, |p.steps|);
    TraceGoesOn(start, script, StateOf(p), merged, r, turn, w);
    merged', r', turn' := merged[w.gone := to], Redirected(WithFresh(r, w, to), w.gone, to), turn[w.gone := |script|];
    p.Rewire(w);
  }

  lemma AskedInTurn(now: Snapshot, script: seq<Rewrite>, asked: seq<Rewrite>, next: seq<Rewrite>, rest: seq<Rewrite>)
    requires asked != [] && Legal(now, asked) && next == script + [asked[0]] && rest == asked[1..]
    ensures Allowed(now, asked[0]) && Legal(Rewritten(now, asked[0]), rest) && script + asked == next + rest
  {
  }

  /** What one step's hook asks for, one replacement after the other. */
  method RunHook(p: Plan, asked: seq<Rewrite>, ghost start: Snapshot, ghost script: seq<Rewrite>, merged: map<Id, Id>, ghost r: map<Id, Id>, ghost turn: map<Id, nat>)
    returns (merged': map<Id, Id>, ghost r': map<Id, Id>, ghost turn': map<Id, nat>)
    requires Carried(p, start, script, merged, r, turn) && Legal(StateOf(p), asked)
    modifies p
    ensures Carried(p, start, script + asked, merged', r', turn') && (asked == [] ==> StateOf(p) == old(StateOf(p)))
    decreases |asked|
  {
    if asked == [] {
      assert script + asked == script;
      return merged, r, turn;
    }
    var w, rest := asked[0], asked[1..];
    ghost var next := script + [w];
    AskedInTurn(StateOf(p), script, asked, next, rest);
    merged', r', turn' := CarryOut(p, w, start, script, merged, r, turn);
    merged', r', turn' := RunHook(p, rest, start, next, merged', r', turn');
  }

  /** What the rounds replaced, one after another. */
  function Joined(rounds: seq<seq<Rewrite>>): seq<Rewrite>
    decreases |rounds|
  {
    if rounds == [] then [] else Joined(rounds[..|rounds| - 1]) + rounds[|rounds| - 1]
  }

  /** Up to a thousand rounds, each but the last replacing something: they end with one that replaces nothing, or at the cap. */
  ghost predicate RoundsUpTo(rounds: seq<seq<Rewrite>>, changed: bool)
  {
    && |rounds| <= 1000
    && (forall i :: 0 <= i < |rounds| - 1 ==> rounds[i] != [])
    && (rounds != [] ==> (changed <==> rounds[|rounds| - 1] != []))
  }

  lemma JoinedUp(script: seq<Rewrite>, round: seq<Rewrite>, asked: seq<Rewrite>)
    ensures script + round + asked == script + (round + asked) && (round + asked != [] <==> round != [] || asked != [])
  {
    if round != [] { assert (round + asked)[0] == round[0]; }
  }

  lemma OneMoreRound(rounds: seq<seq<Rewrite>>, round: seq<Rewrite>, script: seq<Rewrite>)
    requires RoundsUpTo(rounds, true) && |rounds| < 1000 && script == Joined(rounds)
    ensures RoundsUpTo(rounds + [round], round != []) && script + round == Joined(rounds + [round])
  {
    assert (rounds + [round])[..|rounds|] == rounds;
  }

  /** One round over the steps as they stand at its beginning, dependencies first. */
  method Round(p: Plan, hook: Hook, ghost start: Snapshot, ghost script: seq<Rewrite>, merged: map<Id, Id>, ghost r: map<Id, Id>, ghost turn: map<Id, nat>)
    returns (changed: bool, merged': map<Id, Id>, ghost round: seq<Rewrite>, ghost r': map<Id, Id>, ghost turn': map<Id, nat>)
    requires Lawful(hook) && Carried(p, start, script, merged, r, turn)
    modifies p
    ensures Carried(p, start, script + round, merged', r', turn') && (changed <==> round != [])
    ensures !changed ==> Settled(hook, StateOf(p))
  {
    var order := OrderAll(p);
    ghost var was := StateOf(p);
    changed, merged', round, r', turn' := false, merged, [], r, turn;
    assert script + [] == script;
    for i := 0 to |order|
      invariant Carried(p, start, script + round, merged', r', turn') && (changed <==> round != [])
      invariant !changed ==> StateOf(p) == was && Asked(hook, was, order, i)
    {
      ghost var asked;
      var rewrote;
      rewrote, merged', asked, r', turn' := AskOne(p, hook, order[i], start, script + round, merged', r', turn');
      if !changed && !rewrote { AskedOne(hook, was, order, i); }
      JoinedUp(script, round, asked);
      changed, round := changed || rewrote, round + asked;
    }
    if !changed { AllAsked(hook, was, order); }
  }

  method OrderAll(p: Plan) returns (order: seq<Id>)
    requires p.Valid()
    ensures forall s :: s in p.nodes ==> s in Elements(order)
  {
    ghost var rank: Id -> nat :| Ranked(p.nodes, rank);
    order := OrderSteps(p.nodes, rank, p.steps);
    ScopesAreClosed(p.nodes, rank, {}, Elements(p.steps));
  }

  /** A step eradicated earlier in the round is passed over. */
  method AskOne(p: Plan, hook: Hook, s: Id, ghost start: Snapshot, ghost script: seq<Rewrite>, merged: map<Id, Id>, ghost r: map<Id, Id>, ghost turn: map<Id, nat>)
    returns (rewrote: bool, merged': map<Id, Id>, ghost asked: seq<Rewrite>, ghost r': map<Id, Id>, ghost turn': map<Id, nat>)
    requires Lawful(hook) && Carried(p, start, script, merged, r, turn)
    modifies p
    ensures Carried(p, start, script + asked, merged', r', turn') && (rewrote <==> asked != [])
    ensures asked == if s in LiveOf(old(p.nodes), old(p.dead)) then hook(old(StateOf(p)), s) else []
    ensures !rewrote ==> StateOf(p) == old(StateOf(p)) && (s in LiveOf(p.nodes, p.dead) ==> hook(StateOf(p), s) == [])
  {
    rewrote, merged', asked, r', turn' := false, merged, [], r, turn;
    assert script + [] == script;
    if s in p.nodes && s !in p.dead {
      var wanted := hook(StateOf(p), s);
      merged', r', turn' := RunHook(p, wanted, start, script, merged, r, turn);
      asked, rewrote := wanted, wanted != [];
    }
  }

  lemma AskedOne(hook: Hook, now: Snapshot, order: seq<Id>, i: nat)
    requires i < |order| && Asked(hook, now, order, i) && (order[i] in LiveOf(now.nodes, now.dead) ==> hook(now, order[i]) == [])
    ensures Asked(hook, now, order, i + 1)
  {
  }

  /** The hooks met so far in an unchanged plan asked for nothing. */
  ghost predicate Asked(hook: Hook, now: Snapshot, order: seq<Id>, i: nat)
    requires i <= |order|
  {
    forall j :: 0 <= j < i && order[j] in LiveOf(now.nodes, now.dead) ==> hook(now, order[j]) == []
  }

  lemma AllAsked(hook: Hook, now: Snapshot, order: seq<Id>)
    requires Asked(hook, now, order, |order|) && forall s :: s in now.nodes ==> s in Elements(order)
    ensures Settled(hook, now)
  {
    forall s | s in LiveOf(now.nodes, now.dead) ensures hook(now, s) == [] {
      assert s in Elements(order);
      var j :| 0 <= j < |order| && order[j] == s;
    }
  }

  /** `optimize`: rounds until one asks for nothing, or the cap.  What the hooks asked for is one legal script, carried out
      and resolved; and unless the cap was met, no hook has anything left to replace. */
  method Optimize(p: Plan, hook: Hook)
    returns (remap: map<Id, Id>, converged: bool, ghost script: seq<Rewrite>, ghost rounds: seq<seq<Rewrite>>, ghost r: map<Id, Id>)
    requires p.Valid() && p.Unswept() && p.dead == {} && Lawful(hook)
    modifies p
    ensures p.Valid() && p.dead == {} && p.nodes == p.Live() && Legal(old(StateOf(p)), script)
    ensures var end := After(old(StateOf(p)), script);
            p.nodes == LiveOf(end.nodes, end.dead) && remap.Keys == end.dead && (converged ==> Settled(hook, end))
    ensures script == Joined(rounds) && rounds != [] && RoundsUpTo(rounds, !converged) && (!converged ==> |rounds| == 1000)
    ensures r == Images(old(StateOf(p)), Identity(old(p.nodes)), script)
    ensures forall s :: s in r ==> r[s] in p.nodes && (s in p.nodes ==> r[s] == s)
    ensures forall s :: s in remap ==> s in r && remap[s] == r[s]
  {
    ghost var start := StateOf(p);
    var merged: map<Id, Id> := map[];
    ghost var turn: map<Id, nat> := map[];
    script, rounds, r := [], [], Identity(p.nodes);
    TraceStarts(start);
    var changed, loops := true, 0;
    while changed && loops < MAX_OPTIMIZATION_LOOPS
      invariant Carried(p, start, script, merged, r, turn)
      invariant !changed ==> Settled(hook, StateOf(p))
      invariant script == Joined(rounds) && |rounds| == loops && RoundsUpTo(rounds, changed) && (rounds == [] ==> changed)
      decreases MAX_OPTIMIZATION_LOOPS - loops
    {
      loops := loops + 1;
      ghost var round;
      changed, merged, round, r, turn := Round(p, hook, start, script, merged, r, turn);
      OneMoreRound(rounds, round, script);
      script, rounds := script + round, rounds + [round];
    }
    converged := !changed;
    ghost var end := StateOf(p);
    TraceEnds(start, script, end, merged, r, turn);
    p.SweepDead();
    remap := Plan.ResolveMerged(merged, r, turn, |script|, end.nodes, end.dead);
  }
}
