/** Why a cached plan may be served: a plan resolver is an arbitrary decision tree over its reads, and a request on
    which the recorded constraints hold takes the path the builder took. */
module PlanVariants {
  import opened Wrappers
  import opened Constraints
  import opened PlanReads
  import DirectiveScan

  // ----- resolvers as decision trees -----

  datatype Event = Event(read: Read, answer: Answer)

  datatype Action<R> = Ask(read: Read) | Finish(result: R)

  /** What a plan resolver does next, given everything it has seen. */
  type Resolver<!R> = seq<Event> -> Action<R>

  /** The resolver asked exactly these reads of this request, none of which raised. */
  ghost predicate IsRun<R>(resolver: Resolver<R>, facts: Request, args: Args, h: seq<Event>)
  {
    forall i :: 0 <= i < |h| ==> resolver(h[..i]) == Ask(h[i].read) && AnswerTo(facts, args, h[i].read) == Some(h[i].answer)
  }

  ghost predicate Resolves<R>(resolver: Resolver<R>, facts: Request, args: Args, h: seq<Event>, result: R)
  {
    IsRun(resolver, facts, args, h) && resolver(h) == Finish(result)
  }

  /** On one request a resolver has one finished run. */
  lemma OneRun<R>(resolver: Resolver<R>, facts: Request, args: Args, h: seq<Event>, result: R, h': seq<Event>, result': R)
    requires Resolves(resolver, facts, args, h, result) && Resolves(resolver, facts, args, h', result')
    ensures h == h' && result == result'
  {
    var n := if |h| < |h'| then |h| else |h'|;
    RunsAgree(resolver, facts, args, h, h', n);
    assert h[..|h|] == h && h'[..|h'|] == h';
  }

  lemma {:induction false} RunsAgree<R>(resolver: Resolver<R>, facts: Request, args: Args, h: seq<Event>, h': seq<Event>, n: nat)
    requires IsRun(resolver, facts, args, h) && IsRun(resolver, facts, args, h') && n <= |h| && n <= |h'|
    ensures h[..n] == h'[..n]
  {
    if n > 0 {
      RunsAgree(resolver, facts, args, h, h', n - 1);
      assert h[n - 1] == h'[n - 1];
      assert h[..n] == h[..n - 1] + [h[n - 1]] && h'[..n] == h'[..n - 1] + [h'[n - 1]];
    }
  }

  ghost function BookOf(facts: Request, args: Args, h: seq<Event>): Book
    decreases |h|
  {
    if h == [] then EMPTY_BOOK else Noted(facts, args, BookOf(facts, args, h[..|h| - 1]), h[|h| - 1].read)
  }

  // ----- the constraints of one resolver's run -----

  /** The variables whose value was observed through an argument and not netted out by its placeholder. */
  ghost predicate Observed(args: Args, book: Book, variable: string)
  {
    exists name :: name in book.literalReads && name !in book.placeholdered && name in args && FeedsFrom(args[name], variable)
  }

  predicate FeedsFrom(source: ArgSource, variable: string)
  {
    match source
    case Literal(_) => false
    case Direct(v, _) => v == variable
    case Nested(vs, _) => variable in vs
  }

  /** `record_field_args_constraints`: what the bookkeeping is turned into. */
  ghost predicate IsArgConstraint(facts: Request, args: Args, book: Book, c: Constraint)
  {
    || (exists v :: Observed(args, book, v) && c == ValueIs(Variables, [v], Lookup(facts.variables, v)))
    || (exists k :: k in book.equality && IsDirect(args, k.name) && IsCheckConstraint(facts, args[k.name].variable, k, c))
    || (exists name :: name in book.membership && IsDirect(args, name) &&
          c == Exists(Variables, [args[name].variable], args[name].variable in facts.variables))
  }

  predicate IsCheckConstraint(facts: Request, variable: string, k: Check, c: Constraint)
  {
    || c == Exists(Variables, [variable], variable in facts.variables)
    || (variable in facts.variables && c == Equality(Variables, [variable], k.expected, k.passed))
  }

  ghost predicate IsRunConstraint(facts: Request, args: Args, h: seq<Event>, c: Constraint)
  {
    || (exists i :: 0 <= i < |h| && c in Recorded(facts, h[i].read))
    || IsArgConstraint(facts, args, BookOf(facts, args, h), c)
  }

  ghost predicate RunMatches(facts: Request, args: Args, h: seq<Event>, request: Request)
  {
    forall c :: IsRunConstraint(facts, args, h, c) ==> Matches(c, request)
  }

  /** Every value the run pinned has no alias the top-level type check would let through. */
  ghost predicate RunPinned(facts: Request, args: Args, h: seq<Event>)
  {
    forall c :: IsRunConstraint(facts, args, h, c) && c.ValueIs? && c.value.Some? ==> Pinned(c.value.value)
  }

  lemma EqualPins(a: Option<Value>, b: Option<Value>)
    requires ValuesEqual(b, a) && (a.Some? ==> Pinned(a.value))
    ensures a == b
  {
    if a.Some? {
      PinsExactly(a.value);
    }
  }

  /** What one read leaves is still in the book at the end. */
  lemma {:induction false} BookKeeps(facts: Request, args: Args, h: seq<Event>, i: nat)
    requires i < |h|
    ensures var left, book := Noted(facts, args, EMPTY_BOOK, h[i].read), BookOf(facts, args, h);
            && left.literalReads <= book.literalReads && left.placeholdered <= book.placeholdered
            && left.membership <= book.membership && forall k :: k in left.equality ==> k in book.equality
    decreases |h|
  {
    if i < |h| - 1 {
      BookKeeps(facts, args, h[..|h| - 1], i);
    }
  }

  // ----- a build matches its own request -----

  lemma {:induction false} ChecksAreTrue(facts: Request, args: Args, h: seq<Event>)
    ensures ChecksTrue(facts, args, BookOf(facts, args, h))
    decreases |h|
  {
    if h != [] {
      ChecksAreTrue(facts, args, h[..|h| - 1]);
    }
  }

  lemma EqualToItself(v: Option<Value>)
    ensures ValuesEqual(v, v)
  {
    if v.Some? {
      EqReflexive(v.value);
    }
  }

  lemma GateMatchesItself(facts: Request, args: Args, r: Read, c: Constraint)
    requires c in Recorded(facts, r) && AnswerTo(facts, args, r).Some?
    ensures Matches(c, facts)
  {
    if !r.VariableKeys? {
      OneKey(facts, c.scope, c.path[0]);
    }
    if c.ValueIs? {
      EqualToItself(c.value);
    }
  }

  ghost predicate ChecksTrue(facts: Request, args: Args, book: Book)
  {
    forall k :: k in book.equality ==> IsDirect(args, k.name) && k.passed == ValuesEqual(Some(OrNull(Arg(facts, args, k.name))), Some(k.expected))
  }

  lemma ArgMatchesItself(facts: Request, args: Args, book: Book, c: Constraint)
    requires IsArgConstraint(facts, args, book, c) && ChecksTrue(facts, args, book)
    ensures Matches(c, facts)
  {
    OneKey(facts, Variables, c.path[0]);
    if c.ValueIs? {
      EqualToItself(c.value);
    }
  }

  /** The constraints a build records hold of the request it was built for. */
  lemma BuildMatchesItself<R>(resolver: Resolver<R>, facts: Request, args: Args, h: seq<Event>)
    requires IsRun(resolver, facts, args, h)
    ensures RunMatches(facts, args, h, facts)
  {
    ChecksAreTrue(facts, args, h);
    forall c | IsRunConstraint(facts, args, h, c)
      ensures Matches(c, facts)
    {
      if IsArgConstraint(facts, args, BookOf(facts, args, h), c) {
        ArgMatchesItself(facts, args, BookOf(facts, args, h), c);
      } else {
        var i :| 0 <= i < |h| && c in Recorded(facts, h[i].read);
        GateMatchesItself(facts, args, h[i].read, c);
      }
    }
  }

  // ----- a hit replays the build -----

  /** What an item or default read can answer: a value, or for a default read none. */
  predicate Gives(r: Read, a: Answer)
  {
    match r
    case ArgItem(_) => a.AValue? && a.value.Some?
    case ArgGet(_) => a.AValue?
    case _ => true
  }

  /** The answers a hit may differ in: raw values of arguments whose placeholder was taken. */
  ghost predicate Masked(m: set<string>, r: Read, a: Answer, b: Answer)
  {
    match r
    case ArgItem(name) => a == b || (name in m && Gives(r, a) && Gives(r, b))
    case ArgGet(name) => a == b || (name in m && Gives(r, a) && Gives(r, b))
    case ArgRaw => a.ADict? && b.ADict? && forall name :: name !in m ==> Lookup(a.entries, name) == Lookup(b.entries, name)
    case _ => a == b
  }

  ghost predicate Similar(m: set<string>, h: seq<Event>, h': seq<Event>)
  {
    |h| == |h'| && forall i :: 0 <= i < |h| ==> h'[i].read == h[i].read && Masked(m, h[i].read, h[i].answer, h'[i].answer)
  }

  /** Along its run the resolver never branches on the raw value of an argument whose placeholder it takes. */
  ghost predicate NoPeek<R>(resolver: Resolver<R>, m: set<string>, h: seq<Event>)
  {
    forall i, h' :: 0 <= i <= |h| && Similar(m, h[..i], h') ==> resolver(h') == resolver(h[..i])
  }

  ghost predicate MaskedPresent(facts: Request, args: Args, m: set<string>, h: seq<Event>)
  {
    forall i :: 0 <= i < |h| && h[i].read.ArgItem? && h[i].read.name in m ==> Arg(facts, args, h[i].read.name).Some?
  }

  lemma GateAgrees(built: Request, facts: Request, args: Args, r: Read)
    requires r.ContextEval? || r.ContextIs? || r.ContextHas? || r.VariableItem? || r.VariableGet? || r.VariableHas? || r.VariableKeys?
    requires AnswerTo(built, args, r).Some?
    requires forall c :: c in Recorded(built, r) ==> Matches(c, facts) && (c.ValueIs? && c.value.Some? ==> Pinned(c.value.value))
    ensures AnswerTo(facts, args, r) == AnswerTo(built, args, r)
  {
    assert Recorded(built, r)[0] in Recorded(built, r);
    var c := Recorded(built, r)[0];
    if !r.VariableKeys? {
      OneKey(facts, c.scope, c.path[0]);
      OneKey(built, c.scope, c.path[0]);
    }
    if c.ValueIs? {
      EqualPins(c.value, ValueAt(ScopeValue(facts, c.scope), c.path));
    }
    if r.ContextIs? {
      assert Recorded(built, r)[1] in Recorded(built, r);
    }
  }

  ghost predicate ArgsMatch(built: Request, args: Args, book: Book, facts: Request)
  {
    forall c :: IsArgConstraint(built, args, book, c) ==> Matches(c, facts) && (c.ValueIs? && c.value.Some? ==> Pinned(c.value.value))
  }

  lemma ObservedAgrees(built: Request, args: Args, book: Book, facts: Request, variable: string)
    requires ArgsMatch(built, args, book, facts) && Observed(args, book, variable)
    ensures Lookup(facts.variables, variable) == Lookup(built.variables, variable)
  {
    var c := ValueIs(Variables, [variable], Lookup(built.variables, variable));
    assert IsArgConstraint(built, args, book, c);
    OneKey(facts, Variables, variable);
    EqualPins(c.value, Lookup(facts.variables, variable));
  }

  /** An argument observed and not netted out has one value on both requests. */
  lemma ObservedArgAgrees(built: Request, args: Args, book: Book, facts: Request, name: string)
    requires ArgsMatch(built, args, book, facts)
    requires IsDirect(args, name) || IsNested(args, name) ==> name in book.literalReads && name !in book.placeholdered
    ensures Arg(facts, args, name) == Arg(built, args, name)
  {
    if IsDirect(args, name) {
      assert FeedsFrom(args[name], args[name].variable);
      ObservedAgrees(built, args, book, facts, args[name].variable);
    } else if IsNested(args, name) {
      var names := args[name].variables;
      forall i | 0 <= i < |names|
        ensures Lookup(facts.variables, names[i]) == Lookup(built.variables, names[i])
      {
        assert FeedsFrom(args[name], names[i]);
        ObservedAgrees(built, args, book, facts, names[i]);
      }
      assert VariablesOf(facts, names) == VariablesOf(built, names);
    }
  }

  lemma PresenceAgrees(built: Request, args: Args, book: Book, facts: Request, name: string)
    requires ArgsMatch(built, args, book, facts) && (IsDirect(args, name) ==> name in book.membership)
    ensures Arg(facts, args, name).Some? == Arg(built, args, name).Some?
  {
    if IsDirect(args, name) {
      var v := args[name].variable;
      var c := Exists(Variables, [v], v in built.variables);
      assert IsArgConstraint(built, args, book, c);
      OneKey(facts, Variables, v);
    }
  }

  lemma OutcomeAgrees(built: Request, args: Args, book: Book, facts: Request, k: Check)
    requires ArgsMatch(built, args, book, facts) && IsDirect(args, k.name) && k in book.equality
    requires k.passed == ValuesEqual(Some(OrNull(Arg(built, args, k.name))), Some(k.expected))
    ensures ValuesEqual(Some(OrNull(Arg(facts, args, k.name))), Some(k.expected)) == k.passed
  {
    var v := args[k.name].variable;
    var there := Exists(Variables, [v], v in built.variables);
    assert IsCheckConstraint(built, v, k, there) && IsArgConstraint(built, args, book, there);
    OneKey(facts, Variables, v);
    if v in built.variables {
      var c := Equality(Variables, [v], k.expected, k.passed);
      assert IsCheckConstraint(built, v, k, c) && IsArgConstraint(built, args, book, c);
    }
  }

  lemma {:induction false} PlaceholdersAreDirect(facts: Request, args: Args, h: seq<Event>)
    ensures forall name :: name in BookOf(facts, args, h).placeholdered ==> IsDirect(args, name)
    decreases |h|
  {
    if h != [] {
      PlaceholdersAreDirect(facts, args, h[..|h| - 1]);
    }
  }

  lemma RawAgrees(built: Request, args: Args, book: Book, facts: Request, m: set<string>)
    requires ArgsMatch(built, args, book, facts) && m == book.placeholdered && FromVariables(args) <= book.literalReads
    ensures forall name :: name !in m ==> Lookup(RawArgs(facts, args), name) == Lookup(RawArgs(built, args), name)
  {
    forall name | name !in m
      ensures Lookup(RawArgs(facts, args), name) == Lookup(RawArgs(built, args), name)
    {
      if IsDirect(args, name) || IsNested(args, name) {
        assert name in FromVariables(args);
      }
      ObservedArgAgrees(built, args, book, facts, name);
      assert name in RawArgs(facts, args) <==> Arg(facts, args, name).Some?;
      assert name in RawArgs(built, args) <==> Arg(built, args, name).Some?;
    }
  }

  /** One argument read: what its trace in the book pins makes its answer on the hit the one of the build, masked. */
  lemma ArgAgrees(built: Request, args: Args, book: Book, facts: Request, r: Read)
    requires r.ArgItem? || r.ArgGet? || r.ArgIs? || r.ArgHas? || r.ArgRaw? || r.ArgIsVariable? || r.ArgSourceTag?
    requires AnswerTo(built, args, r).Some? && ArgsMatch(built, args, book, facts)
    requires forall name :: name in book.placeholdered ==> IsDirect(args, name)
    requires var left := Noted(built, args, EMPTY_BOOK, r);
             && left.literalReads <= book.literalReads && left.membership <= book.membership
             && forall k :: k in left.equality ==> k in book.equality
    requires r.ArgItem? && r.name in book.placeholdered ==> Arg(facts, args, r.name).Some?
    ensures AnswerTo(facts, args, r).Some? && Masked(book.placeholdered, r, AnswerTo(built, args, r).value, AnswerTo(facts, args, r).value)
  {
    match r
    case ArgItem(name) => if name !in book.placeholdered { ObservedArgAgrees(built, args, book, facts, name); }
    case ArgGet(name) => if name !in book.placeholdered { ObservedArgAgrees(built, args, book, facts, name); }
    case ArgIs(name, expected) =>
      if IsDirect(args, name) {
        var k := Check(name, expected, ValuesEqual(Some(OrNull(Arg(built, args, name))), Some(expected)));
        assert k in Noted(built, args, EMPTY_BOOK, r).equality;
        OutcomeAgrees(built, args, book, facts, k);
      } else {
        ObservedArgAgrees(built, args, book, facts, name);
      }
    case ArgHas(name) => PresenceAgrees(built, args, book, facts, name);
    case ArgRaw => RawAgrees(built, args, book, facts, book.placeholdered);
    case _ =>
  }

  lemma ReadAgrees(built: Request, args: Args, h: seq<Event>, facts: Request, i: nat)
    requires i < |h| && AnswerTo(built, args, h[i].read) == Some(h[i].answer)
    requires RunMatches(built, args, h, facts) && RunPinned(built, args, h)
    requires MaskedPresent(facts, args, BookOf(built, args, h).placeholdered, h)
    ensures var b := AnswerTo(facts, args, h[i].read); b.Some? && Masked(BookOf(built, args, h).placeholdered, h[i].read, h[i].answer, b.value)
  {
    var r, book := h[i].read, BookOf(built, args, h);
    BookKeeps(built, args, h, i);
    PlaceholdersAreDirect(built, args, h);
    if r.ContextEval? || r.ContextIs? || r.ContextHas? || r.VariableItem? || r.VariableGet? || r.VariableHas? || r.VariableKeys? {
      forall c | c in Recorded(built, r) ensures IsRunConstraint(built, args, h, c) {}
      GateAgrees(built, facts, args, r);
    } else {
      forall c | IsArgConstraint(built, args, book, c) ensures IsRunConstraint(built, args, h, c) {}
      ArgAgrees(built, args, book, facts, r);
    }
  }

  /** The first `n` reads of the build, answered by another request. */
  ghost function Replayed(facts: Request, args: Args, h: seq<Event>, n: nat): (h': seq<Event>)
    requires n <= |h|
    ensures |h'| == n && forall i :: 0 <= i < n ==> h'[i].read == h[i].read
    ensures forall i :: 0 <= i < n && AnswerTo(facts, args, h[i].read).Some? ==> h'[i].answer == AnswerTo(facts, args, h[i].read).value
  {
    seq(n, i requires 0 <= i < n => Event(h[i].read, if AnswerTo(facts, args, h[i].read).Some? then AnswerTo(facts, args, h[i].read).value else h[i].answer))
  }

  /** A request on which a resolver's recorded constraints hold takes the builder's path to the builder's result. */
  lemma FieldHitIsFresh<R>(resolver: Resolver<R>, built: Request, facts: Request, args: Args, h: seq<Event>, result: R)
    requires Resolves(resolver, built, args, h, result)
    requires RunMatches(built, args, h, facts) && RunPinned(built, args, h)
    requires NoPeek(resolver, BookOf(built, args, h).placeholdered, h)
    requires MaskedPresent(facts, args, BookOf(built, args, h).placeholdered, h)
    ensures Resolves(resolver, facts, args, Replayed(facts, args, h, |h|), result)
  {
    var m, h' := BookOf(built, args, h).placeholdered, Replayed(facts, args, h, |h|);
    forall i | 0 <= i < |h|
      ensures AnswerTo(facts, args, h[i].read).Some? && Masked(m, h[i].read, h[i].answer, h'[i].answer)
    {
      ReadAgrees(built, args, h, facts, i);
    }
    forall i | 0 <= i <= |h|
      ensures resolver(h'[..i]) == resolver(h[..i])
    {
      assert Similar(m, h[..i], h'[..i]);
    }
    assert h[..|h|] == h && h'[..|h|] == h';
  }

  /** Given the rest, the request takes the builder's path exactly when it carries every placeholdered argument the run
      reads by item. */
  lemma FieldHitIsFreshIff<R>(resolver: Resolver<R>, built: Request, facts: Request, args: Args, h: seq<Event>, result: R)
    requires Resolves(resolver, built, args, h, result)
    requires RunMatches(built, args, h, facts) && RunPinned(built, args, h)
    requires NoPeek(resolver, BookOf(built, args, h).placeholdered, h)
    ensures Resolves(resolver, facts, args, Replayed(facts, args, h, |h|), result) <==> MaskedPresent(facts, args, BookOf(built, args, h).placeholdered, h)
  {
    var m, h' := BookOf(built, args, h).placeholdered, Replayed(facts, args, h, |h|);
    if MaskedPresent(facts, args, m, h) {
      FieldHitIsFresh(resolver, built, facts, args, h, result);
    }
    if Resolves(resolver, facts, args, h', result) {
      forall i | 0 <= i < |h| && h[i].read.ArgItem? && h[i].read.name in m
        ensures Arg(facts, args, h[i].read.name).Some?
      {
        assert AnswerTo(facts, args, h'[i].read) == Some(h'[i].answer);
      }
    }
  }

  /** The same for a resolver that may peek: what it does next on the raw values it is given now is what it did. */
  ghost predicate ActsAlike<R>(resolver: Resolver<R>, h: seq<Event>, h': seq<Event>)
    requires |h'| == |h|
  {
    forall i :: 0 <= i <= |h| ==> resolver(h'[..i]) == resolver(h[..i])
  }

  /** Exactly when a matching request may be served the plan of an arbitrary resolver: it carries the placeholdered
      arguments read by item, and no raw value it answers makes the resolver branch. */
  lemma FieldHitIsFreshExactly<R>(resolver: Resolver<R>, built: Request, facts: Request, args: Args, h: seq<Event>, result: R)
    requires Resolves(resolver, built, args, h, result)
    requires RunMatches(built, args, h, facts) && RunPinned(built, args, h)
    ensures var h' := Replayed(facts, args, h, |h|);
            Resolves(resolver, facts, args, h', result) <==>
              MaskedPresent(facts, args, BookOf(built, args, h).placeholdered, h) && ActsAlike(resolver, h, h')
  {
    var m, h' := BookOf(built, args, h).placeholdered, Replayed(facts, args, h, |h|);
    assert h[..|h|] == h && h'[..|h|] == h';
    if MaskedPresent(facts, args, m, h) && ActsAlike(resolver, h, h') {
      forall i | 0 <= i < |h| ensures AnswerTo(facts, args, h[i].read).Some? { ReadAgrees(built, args, h, facts, i); }
      forall i | 0 <= i < |h| ensures resolver(h'[..i]) == Ask(h'[i].read) { assert resolver(h[..i]) == Ask(h[i].read); }
    }
    if Resolves(resolver, facts, args, h', result) {
      forall i | 0 <= i < |h| && h[i].read.ArgItem? && h[i].read.name in m
        ensures Arg(facts, args, h[i].read.name).Some?
      {
        assert AnswerTo(facts, args, h'[i].read) == Some(h'[i].answer);
      }
      forall i | 0 <= i <= |h| ensures resolver(h'[..i]) == resolver(h[..i]) {
        if i < |h| { assert resolver(h'[..i]) == Ask(h'[i].read) && resolver(h[..i]) == Ask(h[i].read); }
      }
    }
  }

  // ----- a whole planning -----

  datatype Next<!R, P> = Field(args: Args, resolver: Resolver<R>) | Done(plan: P)

  /** Planning: given the selections the request collects and what the resolvers so far returned, the next field to plan or
      the finished plan. */
  type Planner<!R, P> = (seq<DirectiveScan.Collected>, seq<R>) -> Next<R, P>

  ghost predicate PlansField<R, P>(planner: Planner<R, P>, doc: DirectiveScan.Document, facts: Request, hs: seq<seq<Event>>, rs: seq<R>, i: nat)
    requires i < |rs| == |hs|
  {
    var next := planner(DirectiveScan.Selections(doc, facts), rs[..i]);
    next.Field? && Resolves(next.resolver, facts, next.args, hs[i], rs[i])
  }

  /** Planning the request runs the resolvers `hs`, which return `rs`, and ends in `plan`. */
  ghost predicate Plans<R, P>(planner: Planner<R, P>, doc: DirectiveScan.Document, facts: Request, hs: seq<seq<Event>>, rs: seq<R>, plan: P)
  {
    && |hs| == |rs| && (forall i :: 0 <= i < |rs| ==> PlansField(planner, doc, facts, hs, rs, i))
    && planner(DirectiveScan.Selections(doc, facts), rs) == Done(plan)
  }

  /** The constraints stored with the plan: those of the document's directive scan and every resolver's own. */
  ghost predicate IsPlanConstraint<R, P>(planner: Planner<R, P>, doc: DirectiveScan.Document, facts: Request, hs: seq<seq<Event>>, rs: seq<R>, c: Constraint)
    requires |hs| == |rs|
  {
    || DirectiveScan.IsDirectiveConstraint(doc, facts, c)
    || (exists i :: 0 <= i < |rs| && IsFieldConstraint(planner, doc, facts, hs, rs, i, c))
  }

  ghost predicate IsFieldConstraint<R, P>(planner: Planner<R, P>, doc: DirectiveScan.Document, facts: Request, hs: seq<seq<Event>>, rs: seq<R>, i: nat, c: Constraint)
    requires i < |rs| == |hs|
  {
    var next := planner(DirectiveScan.Selections(doc, facts), rs[..i]);
    next.Field? && IsRunConstraint(facts, next.args, hs[i], c)
  }

  /** Every value a resolver's run pinned is one a value constraint pins. */
  ghost predicate FieldsPinned<R, P>(planner: Planner<R, P>, doc: DirectiveScan.Document, built: Request, hs: seq<seq<Event>>, rs: seq<R>)
    requires |hs| == |rs|
  {
    forall c, i :: 0 <= i < |rs| && IsFieldConstraint(planner, doc, built, hs, rs, i, c) && c.ValueIs? && c.value.Some? ==> Pinned(c.value.value)
  }

  /** No field's resolver peeks behind a placeholder it takes. */
  ghost predicate Discreet<R, P>(planner: Planner<R, P>, doc: DirectiveScan.Document, built: Request, hs: seq<seq<Event>>, rs: seq<R>)
    requires |hs| == |rs|
  {
    forall i :: 0 <= i < |rs| && PlansField(planner, doc, built, hs, rs, i) ==>
      var next := planner(DirectiveScan.Selections(doc, built), rs[..i]);
      NoPeek(next.resolver, BookOf(built, next.args, hs[i]).placeholdered, hs[i])
  }

  /** The request carries every placeholdered argument field `i` reads by item. */
  ghost predicate ItemsCarried<R, P>(planner: Planner<R, P>, doc: DirectiveScan.Document, built: Request, hs: seq<seq<Event>>, rs: seq<R>, facts: Request, i: nat)
    requires i < |rs| == |hs| && PlansField(planner, doc, built, hs, rs, i)
  {
    var next := planner(DirectiveScan.Selections(doc, built), rs[..i]);
    MaskedPresent(facts, next.args, BookOf(built, next.args, hs[i]).placeholdered, hs[i])
  }

  /** The same of every field. */
  ghost predicate CarriesItems<R, P>(planner: Planner<R, P>, doc: DirectiveScan.Document, built: Request, hs: seq<seq<Event>>, rs: seq<R>, facts: Request)
    requires |hs| == |rs|
  {
    forall i :: 0 <= i < |rs| && PlansField(planner, doc, built, hs, rs, i) ==> ItemsCarried(planner, doc, built, hs, rs, facts, i)
  }

  ghost function ReplayedRuns<R, P>(planner: Planner<R, P>, doc: DirectiveScan.Document, built: Request, hs: seq<seq<Event>>, rs: seq<R>, facts: Request): (hs': seq<seq<Event>>)
    requires |hs| == |rs|
    ensures |hs'| == |rs|
  {
    seq(|rs|, i requires 0 <= i < |rs| =>
      var next := planner(DirectiveScan.Selections(doc, built), rs[..i]);
      if next.Field? then Replayed(facts, next.args, hs[i], |hs[i]|) else [])
  }

  /** A hit equals a fresh plan: planning the request itself would run the same fields to the same plan -- exactly when
      the request carries what is read by item behind a placeholder. */
  lemma HitIsFresh<R, P>(planner: Planner<R, P>, doc: DirectiveScan.Document, built: Request, hs: seq<seq<Event>>, rs: seq<R>, plan: P, facts: Request)
    requires Plans(planner, doc, built, hs, rs, plan) && Discreet(planner, doc, built, hs, rs)
    requires forall c :: IsPlanConstraint(planner, doc, built, hs, rs, c) ==> Matches(c, facts)
    requires FieldsPinned(planner, doc, built, hs, rs)
    ensures Plans(planner, doc, facts, ReplayedRuns(planner, doc, built, hs, rs, facts), rs, plan)
       <==> CarriesItems(planner, doc, built, hs, rs, facts)
  {
    var hs' := ReplayedRuns(planner, doc, built, hs, rs, facts);
    DirectiveScan.CollectionIsPinned(doc, built, facts, |doc.fragments|);
    forall i | 0 <= i < |rs|
      ensures PlansField(planner, doc, facts, hs', rs, i) <==> ItemsCarried(planner, doc, built, hs, rs, facts, i)
    {
      FieldOfHit(planner, doc, built, hs, rs, facts, i);
    }
  }

  lemma FieldOfHit<R, P>(planner: Planner<R, P>, doc: DirectiveScan.Document, built: Request, hs: seq<seq<Event>>, rs: seq<R>, facts: Request, i: nat)
    requires i < |rs| == |hs| && PlansField(planner, doc, built, hs, rs, i) && DirectiveScan.Selections(doc, facts) == DirectiveScan.Selections(doc, built)
    requires forall c :: IsPlanConstraint(planner, doc, built, hs, rs, c) ==> Matches(c, facts)
    requires FieldsPinned(planner, doc, built, hs, rs)
    requires Discreet(planner, doc, built, hs, rs)
    ensures PlansField(planner, doc, facts, ReplayedRuns(planner, doc, built, hs, rs, facts), rs, i)
       <==> ItemsCarried(planner, doc, built, hs, rs, facts, i)
  {
    var next := planner(DirectiveScan.Selections(doc, built), rs[..i]);
    forall c | IsRunConstraint(built, next.args, hs[i], c)
      ensures IsPlanConstraint(planner, doc, built, hs, rs, c) && (c.ValueIs? && c.value.Some? ==> Pinned(c.value.value))
    {
      assert IsFieldConstraint(planner, doc, built, hs, rs, i, c);
    }
    FieldHitIsFreshIff(next.resolver, built, facts, next.args, hs[i], rs[i]);
  }

  /** A build's constraints hold of its own request, whatever the resolvers are. */
  lemma PlanMatchesItself<R, P>(planner: Planner<R, P>, doc: DirectiveScan.Document, built: Request, hs: seq<seq<Event>>, rs: seq<R>, plan: P)
    requires Plans(planner, doc, built, hs, rs, plan)
    ensures forall c :: IsPlanConstraint(planner, doc, built, hs, rs, c) ==> Matches(c, built)
  {
    forall c | IsPlanConstraint(planner, doc, built, hs, rs, c)
      ensures Matches(c, built)
    {
      if DirectiveScan.IsDirectiveConstraint(doc, built, c) {
        OneKey(built, Variables, c.path[0]);
        EqualToItself(c.value);
      } else {
        var i :| 0 <= i < |rs| && IsFieldConstraint(planner, doc, built, hs, rs, i, c);
        var next := planner(DirectiveScan.Selections(doc, built), rs[..i]);
        assert PlansField(planner, doc, built, hs, rs, i);
        BuildMatchesItself(next.resolver, built, next.args, hs[i]);
      }
    }
  }

  // ----- each condition is needed -----

  /** Reads an argument raw, takes its placeholder, and lets the raw value decide. */
  function Peeker(): Resolver<Option<Value>>
  {
    (h: seq<Event>) =>
      if |h| == 0 then Ask(ArgGet("a"))
      else if |h| == 1 then Ask(ArgSourceTag("a"))
      else Finish(if h[0].answer.AValue? then h[0].answer.value else None)
  }

  function PeekerArgs(): Args
  {
    map["a" := Direct("v", None)]
  }

  function PeekerRun(x: Value): seq<Event>
  {
    [Event(ArgGet("a"), AValue(Some(x))), Event(ArgSourceTag("a"), ATag("var:v"))]
  }

  function WithVariable(x: Value): Request
  {
    Request(map["v" := x], map[])
  }

  lemma PeekerResolves(x: Value)
    ensures Resolves(Peeker(), WithVariable(x), PeekerArgs(), PeekerRun(x), Some(x))
  {
    var h := PeekerRun(x);
    assert h[..0] == [] && h[..1] == [h[0]];
    assert "var:" + "v" == "var:v";
  }

  /** A resolver that peeks is served stale: nothing is recorded, so every other value matches. */
  lemma PeekingGoesStale(x: Value, y: Value)
    requires x != y
    ensures Resolves(Peeker(), WithVariable(x), PeekerArgs(), PeekerRun(x), Some(x))
    ensures RunMatches(WithVariable(x), PeekerArgs(), PeekerRun(x), WithVariable(y))
    ensures Resolves(Peeker(), WithVariable(y), PeekerArgs(), PeekerRun(y), Some(y))
  {
    PeekerResolves(x);
    PeekerResolves(y);
    var h := PeekerRun(x);
    assert h[..1] == [h[0]] && h[..1][..0] == [] && h[..0] == [];
    var facts, args := WithVariable(x), PeekerArgs();
    assert BookOf(facts, args, []) == EMPTY_BOOK;
    assert BookOf(facts, args, h[..1]) == Book({"a"}, {}, {}, []);
    assert BookOf(facts, args, h) == Book({"a"}, {"a"}, {}, []);
  }

  /** Reads one context entry and lets its value decide. */
  function Evaluator(key: string): Resolver<Value>
  {
    (h: seq<Event>) => if |h| == 0 || !h[0].answer.AValue? || h[0].answer.value.None? then Ask(ContextEval(key)) else Finish(h[0].answer.value.value)
  }

  function WithContext(key: string, x: Value): Request
  {
    Request(map[], map[key := x])
  }

  /** Evaluating a container with an alias inside is served stale to the request carrying that alias. */
  lemma AliasGoesStale(key: string, v: Value)
    requires !Pinned(v)
    ensures var h, w := [Event(ContextEval(key), AValue(Some(v)))], Alias(v);
            && Resolves(Evaluator(key), WithContext(key, v), map[], h, v)
            && RunMatches(WithContext(key, v), map[], h, WithContext(key, w))
            && Resolves(Evaluator(key), WithContext(key, w), map[], [Event(ContextEval(key), AValue(Some(w)))], w)
            && w != v
  {
    AliasIsEqual(v);
    var h := [Event(ContextEval(key), AValue(Some(v)))];
    var facts, other := WithContext(key, v), WithContext(key, Alias(v));
    assert h[..0] == [];
    assert BookOf(facts, map[], []) == EMPTY_BOOK;
    assert BookOf(facts, map[], h) == EMPTY_BOOK;
    forall c | IsRunConstraint(facts, map[], h, c)
      ensures Matches(c, other)
    {
      assert c == ValueIs(Context, [key], Some(v));
      OneKey(other, Context, key);
    }
  }

  /** Reading a placeholdered argument by item: the hit is served where a fresh plan would raise. */
  lemma OmittedItemIsServed(x: Value)
    ensures var facts, h := Request(map[], map[]), [Event(ArgItem("a"), AValue(Some(x))), Event(ArgSourceTag("a"), ATag("var:v"))];
            && RunMatches(WithVariable(x), PeekerArgs(), h, facts)
            && AnswerTo(WithVariable(x), PeekerArgs(), ArgItem("a")) == Some(AValue(Some(x)))
            && AnswerTo(facts, PeekerArgs(), ArgItem("a")).None?
  {
    var h := [Event(ArgItem("a"), AValue(Some(x))), Event(ArgSourceTag("a"), ATag("var:v"))];
    assert h[..1] == [h[0]] && h[..1][..0] == [];
    var built, args := WithVariable(x), PeekerArgs();
    assert BookOf(built, args, []) == EMPTY_BOOK;
    assert BookOf(built, args, h[..1]) == Book({"a"}, {}, {}, []);
    assert BookOf(built, args, h) == Book({"a"}, {"a"}, {}, []);
  }
}
