/** Planning one field as it runs: the resolver's reads go through the gate, the tracked variables and the argument
    accessor, and the accessor's bookkeeping is converted when the resolver returns. */
module PlanRecording {
  import opened Wrappers
  import opened Constraints
  import opened PlanReads
  import opened PlanVariants

  datatype Outcome<R> = Finished(result: R) | Aborted | Unfinished

  // ----- converting the bookkeeping -----

  /** The variables behind one observed argument. */
  function Sources(source: ArgSource): (vs: set<string>)
    ensures forall v :: v in vs <==> FeedsFrom(source, v)
  {
    match source
    case Literal(_) => {}
    case Direct(v, _) => {v}
    case Nested(vs, _) => set v | v in vs
  }

  method ObservedVariables(args: Args, book: Book) returns (names: set<string>)
    ensures forall v :: v in names <==> Observed(args, book, v)
  {
    names := {};
    var todo := book.literalReads - book.placeholdered;
    while todo != {}
      invariant todo <= book.literalReads - book.placeholdered
      invariant forall v :: v in names <==> exists name :: name in book.literalReads - book.placeholdered - todo && name in args && FeedsFrom(args[name], v)
    {
      var name :| name in todo;
      if name in args {
        names := names + Sources(args[name]);
      }
      todo := todo - {name};
    }
  }

  ghost predicate IsObservedConstraint(facts: Request, names: set<string>, c: Constraint)
  {
    exists v :: v in names && c == ValueIs(Variables, [v], Lookup(facts.variables, v))
  }

  method RecordObserved(facts: Request, names: set<string>, sink: Sink)
    modifies sink
    ensures old(sink.constraints) <= sink.constraints
    ensures forall c :: c in sink.constraints[|old(sink.constraints)|..] <==> IsObservedConstraint(facts, names, c)
  {
    var todo := names;
    ghost var before := sink.constraints;
    while todo != {}
      invariant todo <= names && before <= sink.constraints
      invariant forall c :: c in sink.constraints[|before|..] <==> IsObservedConstraint(facts, names - todo, c)
    {
      var v :| v in todo;
      var c := ValueIs(Variables, [v], Lookup(facts.variables, v));
      ghost var was := sink.constraints;
      sink.Append(c);
      assert sink.constraints[|before|..] == was[|before|..] + [c];
      assert names - (todo - {v}) == names - todo + {v};
      todo := todo - {v};
    }
    assert names - {} == names;
  }

  ghost predicate IsEqualityConstraint(facts: Request, args: Args, checks: seq<Check>, c: Constraint)
  {
    exists k :: k in checks && IsDirect(args, k.name) && IsCheckConstraint(facts, args[k.name].variable, k, c)
  }

  method RecordCheck(facts: Request, args: Args, k: Check, sink: Sink)
    modifies sink
    ensures old(sink.constraints) <= sink.constraints
    ensures forall c :: c in sink.constraints[|old(sink.constraints)|..] <==>
              IsDirect(args, k.name) && IsCheckConstraint(facts, args[k.name].variable, k, c)
  {
    if IsDirect(args, k.name) {
      var variable := args[k.name].variable;
      var present := variable in facts.variables;
      sink.Append(Exists(Variables, [variable], present));
      if present {
        sink.Append(Equality(Variables, [variable], k.expected, k.passed));
        assert sink.constraints[|old(sink.constraints)|..] == [Exists(Variables, [variable], true), Equality(Variables, [variable], k.expected, k.passed)];
      }
    }
  }

  lemma OneMoreCheck(facts: Request, args: Args, checks: seq<Check>, i: nat, c: Constraint)
    requires i < |checks|
    ensures IsEqualityConstraint(facts, args, checks[..i + 1], c) <==>
              IsEqualityConstraint(facts, args, checks[..i], c)
              || (IsDirect(args, checks[i].name) && IsCheckConstraint(facts, args[checks[i].name].variable, checks[i], c))
  {
    assert checks[..i + 1] == checks[..i] + [checks[i]];
    assert checks[i] in checks[..i + 1];
  }

  method RecordChecks(facts: Request, args: Args, checks: seq<Check>, sink: Sink)
    modifies sink
    ensures old(sink.constraints) <= sink.constraints
    ensures forall c :: c in sink.constraints[|old(sink.constraints)|..] <==> IsEqualityConstraint(facts, args, checks, c)
  {
    ghost var before := sink.constraints;
    for i := 0 to |checks|
      invariant before <= sink.constraints
      invariant forall c :: c in sink.constraints[|before|..] <==> IsEqualityConstraint(facts, args, checks[..i], c)
    {
      ghost var was := sink.constraints;
      RecordCheck(facts, args, checks[i], sink);
      assert sink.constraints[|before|..] == was[|before|..] + sink.constraints[|was|..];
      forall c { OneMoreCheck(facts, args, checks, i, c); }
    }
    assert checks[..|checks|] == checks;
  }

  ghost predicate IsMembershipConstraint(facts: Request, args: Args, names: set<string>, c: Constraint)
  {
    exists name :: name in names && IsDirect(args, name) && c == Exists(Variables, [args[name].variable], args[name].variable in facts.variables)
  }

  method RecordMembership(facts: Request, args: Args, names: set<string>, sink: Sink)
    modifies sink
    ensures old(sink.constraints) <= sink.constraints
    ensures forall c :: c in sink.constraints[|old(sink.constraints)|..] <==> IsMembershipConstraint(facts, args, names, c)
  {
    var todo := names;
    ghost var before := sink.constraints;
    while todo != {}
      invariant todo <= names && before <= sink.constraints
      invariant forall c :: c in sink.constraints[|before|..] <==> IsMembershipConstraint(facts, args, names - todo, c)
    {
      var name :| name in todo;
      ghost var was := sink.constraints;
      if IsDirect(args, name) {
        sink.Append(Exists(Variables, [args[name].variable], args[name].variable in facts.variables));
      }
      assert sink.constraints[|before|..] == was[|before|..] + sink.constraints[|was|..];
      assert names - (todo - {name}) == names - todo + {name};
      todo := todo - {name};
    }
    assert names - {} == names;
  }

  /** `record_field_args_constraints`: the sink gains exactly what the bookkeeping stands for. */
  method RecordFieldArgs(fieldArgs: FieldArgs, sink: Sink)
    modifies sink
    ensures old(sink.constraints) <= sink.constraints
    ensures forall c :: c in sink.constraints[|old(sink.constraints)|..] <==>
                        IsArgConstraint(fieldArgs.facts, fieldArgs.args, fieldArgs.Bookkeeping(), c)
  {
    var facts, args, book := fieldArgs.facts, fieldArgs.args, fieldArgs.Bookkeeping();
    ghost var s0 := sink.constraints;
    var names := ObservedVariables(args, book);
    RecordObserved(facts, names, sink);
    ghost var s1 := sink.constraints;
    RecordChecks(facts, args, book.equality, sink);
    ghost var s2 := sink.constraints;
    RecordMembership(facts, args, book.membership, sink);
    assert sink.constraints[|s0|..] == s1[|s0|..] + s2[|s1|..] + sink.constraints[|s2|..];
    ThreeKinds(facts, args, book, names);
  }

  lemma ThreeKinds(facts: Request, args: Args, book: Book, names: set<string>)
    requires forall v :: v in names <==> Observed(args, book, v)
    ensures forall c :: IsArgConstraint(facts, args, book, c) <==>
              IsObservedConstraint(facts, names, c) || IsEqualityConstraint(facts, args, book.equality, c) || IsMembershipConstraint(facts, args, book.membership, c)
  {
  }

  // ----- running a resolver -----

  /** The constraints the run's gate and variable reads appended. */
  ghost function GateConstraints(facts: Request, h: seq<Event>): seq<Constraint>
    decreases |h|
  {
    if h == [] then [] else GateConstraints(facts, h[..|h| - 1]) + Recorded(facts, h[|h| - 1].read)
  }

  lemma {:induction false} GateConstraintsAre(facts: Request, h: seq<Event>, c: Constraint)
    ensures c in GateConstraints(facts, h) <==> exists i :: 0 <= i < |h| && c in Recorded(facts, h[i].read)
    decreases |h|
  {
    if h != [] {
      var n := |h| - 1;
      GateConstraintsAre(facts, h[..n], c);
      forall i | 0 <= i < n ensures h[..n][i] == h[i] {}
      if i :| 0 <= i < |h| && c in Recorded(facts, h[i].read) {
        assert i == n || h[..n][i] == h[i];
      }
    }
  }

  lemma AnswersToGate(facts: Request, args: Args, r: Read)
    requires !r.ArgItem? && !r.ArgGet? && !r.ArgIs? && !r.ArgHas? && !r.ArgRaw? && !r.ArgIsVariable? && !r.ArgSourceTag?
    ensures AnswerTo(facts, args, r) == AnswerTo(facts, map[], r)
    ensures forall book :: Noted(facts, args, book, r) == book
  {
  }

  /** One read through the object that answers it; None when it raises. */
  method ReadGate(facts: Request, args: Args, r: Read, gate: ContextGate, variables: TrackedVariables, sink: Sink) returns (answer: Option<Answer>)
    requires gate.facts == variables.facts == facts && gate.sink == variables.sink == sink
    requires !r.ArgItem? && !r.ArgGet? && !r.ArgIs? && !r.ArgHas? && !r.ArgRaw? && !r.ArgIsVariable? && !r.ArgSourceTag?
    modifies sink
    ensures answer == AnswerTo(facts, args, r)
    ensures answer.Some? ==> sink.constraints == old(sink.constraints) + Recorded(facts, r)
  {
    AnswersToGate(facts, args, r);
    match r
    case ContextEval(key) => var v := gate.Eval(key); answer := if v.Some? then Some(AValue(v)) else None;
    case ContextIs(key, expected) => var v := gate.EvalIs(key, expected); answer := if v.Some? then Some(ABool(v.value)) else None;
    case ContextHas(key) => var v := gate.EvalHas(key); answer := Some(ABool(v));
    case VariableItem(name) => var v := variables.Item(name); answer := if v.Some? then Some(AValue(v)) else None;
    case VariableGet(name) => var v := variables.Get(name); answer := Some(AValue(v));
    case VariableHas(name) => var v := variables.Contains(name); answer := Some(ABool(v));
    case VariableKeys => var v := variables.Keys(); answer := Some(AKeys(v));
  }

  method ReadArg(r: Read, fieldArgs: FieldArgs) returns (answer: Option<Answer>)
    requires r.ArgItem? || r.ArgGet? || r.ArgIs? || r.ArgHas? || r.ArgRaw? || r.ArgIsVariable? || r.ArgSourceTag?
    modifies fieldArgs
    ensures answer == AnswerTo(fieldArgs.facts, fieldArgs.args, r)
    ensures fieldArgs.Bookkeeping() == Noted(fieldArgs.facts, fieldArgs.args, old(fieldArgs.Bookkeeping()), r)
  {
    match r
    case ArgItem(name) => var v := fieldArgs.Item(name); answer := if v.Some? then Some(AValue(v)) else None;
    case ArgGet(name) => var v := fieldArgs.Get(name); answer := Some(AValue(v));
    case ArgIs(name, expected) => var v := fieldArgs.EvalIs(name, expected); answer := Some(ABool(v));
    case ArgHas(name) => var v := fieldArgs.Contains(name); answer := Some(ABool(v));
    case ArgRaw => var v := fieldArgs.Raw(); answer := Some(ADict(v));
    case ArgIsVariable(name) => answer := Some(ABool(IsDirect(fieldArgs.args, name)));
    case ArgSourceTag(name) => var v := fieldArgs.Source(name); answer := if v.Some? then Some(ATag(v.value)) else None;
  }

  method ReadOne(r: Read, gate: ContextGate, variables: TrackedVariables, fieldArgs: FieldArgs, sink: Sink) returns (answer: Option<Answer>)
    requires gate.facts == variables.facts == fieldArgs.facts && gate.sink == variables.sink == sink
    modifies sink, fieldArgs
    ensures answer == AnswerTo(fieldArgs.facts, fieldArgs.args, r)
    ensures answer.Some? ==> sink.constraints == old(sink.constraints) + Recorded(fieldArgs.facts, r)
    ensures answer.Some? ==> fieldArgs.Bookkeeping() == Noted(fieldArgs.facts, fieldArgs.args, old(fieldArgs.Bookkeeping()), r)
  {
    if r.ArgItem? || r.ArgGet? || r.ArgIs? || r.ArgHas? || r.ArgRaw? || r.ArgIsVariable? || r.ArgSourceTag? {
      answer := ReadArg(r, fieldArgs);
    } else {
      AnswersToGate(fieldArgs.facts, fieldArgs.args, r);
      answer := ReadGate(fieldArgs.facts, fieldArgs.args, r, gate, variables, sink);
    }
  }

  lemma RunGrows<R>(resolver: Resolver<R>, facts: Request, args: Args, h: seq<Event>, r: Read, a: Answer)
    requires IsRun(resolver, facts, args, h) && resolver(h) == Ask(r) && AnswerTo(facts, args, r) == Some(a)
    ensures IsRun(resolver, facts, args, h + [Event(r, a)])
    ensures BookOf(facts, args, h + [Event(r, a)]) == Noted(facts, args, BookOf(facts, args, h), r)
    ensures GateConstraints(facts, h + [Event(r, a)]) == GateConstraints(facts, h) + Recorded(facts, r)
  {
    var h' := h + [Event(r, a)];
    assert h'[..|h|] == h;
    forall i | 0 <= i < |h'|
      ensures resolver(h'[..i]) == Ask(h'[i].read) && AnswerTo(facts, args, h'[i].read) == Some(h'[i].answer)
    {
      if i < |h| { assert h'[..i] == h[..i]; }
    }
  }

  /** What the reads so far have left behind: their bookkeeping and, in the sink, the constraints of the gated ones. */
  ghost predicate LeftBehind(fieldArgs: FieldArgs, sink: Sink, h: seq<Event>, before: seq<Constraint>)
    reads fieldArgs, sink
  {
    && fieldArgs.Bookkeeping() == BookOf(fieldArgs.facts, fieldArgs.args, h)
    && sink.constraints == before + GateConstraints(fieldArgs.facts, h)
  }

  /** One more read of the run. */
  method NextRead<R>(resolver: Resolver<R>, r: Read, gate: ContextGate, variables: TrackedVariables, fieldArgs: FieldArgs, sink: Sink,
                     ghost h: seq<Event>, ghost before: seq<Constraint>) returns (answer: Option<Answer>)
    requires gate.facts == variables.facts == fieldArgs.facts && gate.sink == variables.sink == sink
    requires IsRun(resolver, fieldArgs.facts, fieldArgs.args, h) && resolver(h) == Ask(r) && LeftBehind(fieldArgs, sink, h, before)
    modifies sink, fieldArgs
    ensures answer == AnswerTo(fieldArgs.facts, fieldArgs.args, r)
    ensures answer.Some? ==> IsRun(resolver, fieldArgs.facts, fieldArgs.args, h + [Event(r, answer.value)])
    ensures answer.Some? ==> LeftBehind(fieldArgs, sink, h + [Event(r, answer.value)], before)
  {
    answer := ReadOne(r, gate, variables, fieldArgs, sink);
    if answer.Some? {
      RunGrows(resolver, fieldArgs.facts, fieldArgs.args, h, r, answer.value);
      ConstraintsGrow(before, GateConstraints(fieldArgs.facts, h), Recorded(fieldArgs.facts, r));
    }
  }

  lemma ConstraintsGrow(before: seq<Constraint>, gates: seq<Constraint>, more: seq<Constraint>)
    ensures before + gates + more == before + (gates + more)
  {
  }

  /** The end of a run: its bookkeeping is converted. */
  method Conclude(fieldArgs: FieldArgs, sink: Sink, ghost h: seq<Event>, ghost before: seq<Constraint>)
    requires LeftBehind(fieldArgs, sink, h, before)
    modifies sink
    ensures before <= sink.constraints
    ensures forall c :: c in sink.constraints[|before|..] <==> IsRunConstraint(fieldArgs.facts, fieldArgs.args, h, c)
  {
    RecordFieldArgs(fieldArgs, sink);
    AllConstraints(fieldArgs.facts, fieldArgs.args, h, before, sink.constraints);
  }

  /** Plans one field: runs the resolver for at most `fuel` reads and, when it returns, converts the bookkeeping.
      What the sink has gained is then exactly what the run's reads call for. */
  method PlanField<R>(resolver: Resolver<R>, facts: Request, args: Args, sink: Sink, fuel: nat) returns (outcome: Outcome<R>, ghost h: seq<Event>)
    modifies sink
    ensures IsRun(resolver, facts, args, h)
    ensures outcome.Finished? ==> resolver(h) == Finish(outcome.result) && old(sink.constraints) <= sink.constraints
    ensures outcome.Finished? ==> forall c :: c in sink.constraints[|old(sink.constraints)|..] <==> IsRunConstraint(facts, args, h, c)
    ensures outcome.Aborted? ==> resolver(h).Ask? && AnswerTo(facts, args, resolver(h).read).None?
    ensures outcome.Unfinished? ==> |h| == fuel
  {
    var gate := new ContextGate(facts, sink);
    var variables := new TrackedVariables(facts, sink);
    var fieldArgs := new FieldArgs(facts, args);
    var seen: seq<Event> := [];
    ghost var before := sink.constraints;
    for n := 0 to fuel
      invariant |seen| == n && IsRun(resolver, facts, args, seen) && LeftBehind(fieldArgs, sink, seen, before)
    {
      if resolver(seen).Finish? {
        Conclude(fieldArgs, sink, seen, before);
        return Finished(resolver(seen).result), seen;
      }
      var r := resolver(seen).read;
      var answer := NextRead(resolver, r, gate, variables, fieldArgs, sink, seen, before);
      if answer.None? {
        return Aborted, seen;
      }
      seen := seen + [Event(r, answer.value)];
    }
    outcome, h := Unfinished, seen;
  }

  lemma AllConstraints(facts: Request, args: Args, h: seq<Event>, before: seq<Constraint>, after: seq<Constraint>)
    requires before + GateConstraints(facts, h) <= after
    requires forall c :: c in after[|before + GateConstraints(facts, h)|..] <==> IsArgConstraint(facts, args, BookOf(facts, args, h), c)
    ensures forall c :: c in after[|before|..] <==> IsRunConstraint(facts, args, h, c)
  {
    var gates := GateConstraints(facts, h);
    assert after[|before|..] == gates + after[|before + gates|..];
    forall c { GateConstraintsAre(facts, h, c); }
  }
}
