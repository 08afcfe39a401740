/** The variables a plan-time directive names, through every fragment an operation reaches, and the selections that are
    collected under their values: the scan records exactly what fixes the collection. */
module DirectiveScan {
  import opened Wrappers
  import opened Constraints
  import opened Sequences

  datatype ArgValue = VariableRef(name: string) | Constant(value: Value)

  datatype Argument = Argument(name: string, value: ArgValue)

  datatype Directive = Directive(name: string, arguments: seq<Argument>)

  datatype Head = FieldNode(responseKey: string) | InlineFragment(typeCondition: Option<string>)

  /** A field or an inline fragment with its selections, or the spread of a named fragment. */
  datatype Selection =
    | Nested(head: Head, directives: seq<Directive>, selections: seq<Selection>)
    | Spread(directives: seq<Directive>, fragment: string)

  type Fragments = map<string, seq<Selection>>

  const PLAN_TIME_DIRECTIVES := {"skip", "include", "defer", "stream"}

  function DirectiveVariables(directives: seq<Directive>): set<string>
  {
    set i, j | 0 <= i < |directives| && directives[i].name in PLAN_TIME_DIRECTIVES && 0 <= j < |directives[i].arguments|
               && directives[i].arguments[j].value.VariableRef? :: directives[i].arguments[j].value.name
  }

  // ----- collecting under given variable values -----

  function FirstAt(directives: seq<Directive>, name: string): (i: nat)
    ensures i <= |directives| && (i < |directives| ==> directives[i].name == name)
    ensures forall j :: 0 <= j < i ==> directives[j].name != name
    decreases |directives|
  {
    if directives == [] then 0 else if directives[0].name == name then 0 else
      var i := FirstAt(directives[1..], name);
      assert forall j :: 1 <= j < i + 1 ==> directives[j] == directives[1..][j - 1];
      i + 1
  }

  /** The first directive of that name, the one that counts. */
  function FirstNamed(directives: seq<Directive>, name: string): (d: Option<Directive>)
    ensures d.Some? ==> d.value in directives && d.value.name == name
    ensures d.None? ==> forall i :: 0 <= i < |directives| ==> directives[i].name != name
  {
    var i := FirstAt(directives, name);
    if i < |directives| then Some(directives[i]) else None
  }

  function ArgumentOf(arguments: seq<Argument>, name: string): (a: Option<ArgValue>)
    ensures a.Some? ==> Argument(name, a.value) in arguments
    ensures a.None? ==> forall i :: 0 <= i < |arguments| ==> arguments[i].name != name
  {
    if arguments == [] then None
    else if arguments[0].name == name then Some(arguments[0].value)
    else
      assert forall i :: 1 <= i < |arguments| ==> arguments[i] == arguments[1..][i - 1];
      ArgumentOf(arguments[1..], name)
  }

  /** What the argument is given: nothing when it is left out or its variable is. */
  function Given(d: Directive, name: string, variables: map<string, Value>): Option<Value>
  {
    match ArgumentOf(d.arguments, name)
    case None => None
    case Some(Constant(v)) => Some(v)
    case Some(VariableRef(v)) => Lookup(variables, v)
  }

  /** What a directive's arguments are coerced to, or the coercion error. */
  datatype Outcome<T> = Is(value: T) | Refused

  /** `if: Boolean!`, with the default some directives have. */
  function Condition(d: Directive, default: Option<bool>, variables: map<string, Value>): Outcome<bool>
  {
    match Given(d, "if", variables)
    case None => if default.Some? then Is(default.value) else Refused
    case Some(VBool(b)) => Is(b)
    case Some(_) => Refused
  }

  /** Whether the selection stays: not when it is skipped, and else as @include says. */
  function Included(directives: seq<Directive>, variables: map<string, Value>): Outcome<bool>
  {
    var skip, only := FirstNamed(directives, "skip"), FirstNamed(directives, "include");
    var skipped := if skip.Some? then Condition(skip.value, None, variables) else Is(false);
    if skipped != Is(false) then (if skipped == Is(true) then Is(false) else Refused)
    else if only.Some? then Condition(only.value, None, variables)
    else Is(true)
  }

  /** Not deferred or streamed, or so under a label and from an item on. */
  datatype Mark = Plain | Marked(tag: Option<string>, initialCount: int)

  function LabelOf(d: Directive, variables: map<string, Value>): Outcome<Option<string>>
  {
    match Given(d, "label", variables)
    case None => Is(None)
    case Some(VNull) => Is(None)
    case Some(VStr(s)) => Is(Some(s))
    case Some(_) => Refused
  }

  function CountOf(d: Directive, variables: map<string, Value>): Outcome<int>
  {
    match Given(d, "initialCount", variables)
    case None => Is(0)
    case Some(VNull) => Is(0)
    case Some(VInt(n)) => Is(n)
    case Some(_) => Refused
  }

  /** @defer on a fragment and @stream on a field: in force unless `if` is false. */
  function MarkOf(directives: seq<Directive>, name: string, variables: map<string, Value>): Outcome<Mark>
  {
    match FirstNamed(directives, name)
    case None => Is(Plain)
    case Some(d) =>
      var on, tag, count := Condition(d, Some(true), variables), LabelOf(d, variables), CountOf(d, variables);
      if on.Refused? || tag.Refused? || count.Refused? then Refused
      else if !on.value then Is(Plain)
      else Is(Marked(tag.value, count.value))
  }

  /** A selection that stays, with what it is deferred or streamed under and what stays of its own selections. */
  datatype Collected =
    | Kept(head: Head, mark: Outcome<Mark>, selections: seq<Collected>)
    | Expanded(fragment: string, mark: Outcome<Mark>, selections: seq<Collected>)
    | Unexpanded(fragment: string)
    | Failed

  /** What stays of the selections under the variable values, spreads followed `depth` fragments deep. */
  function Collect(fragments: Fragments, selections: seq<Selection>, variables: map<string, Value>, depth: nat): seq<Collected>
    decreases depth, selections
  {
    if selections == [] then []
    else CollectOne(fragments, selections[0], variables, depth) + Collect(fragments, selections[1..], variables, depth)
  }

  function CollectOne(fragments: Fragments, s: Selection, variables: map<string, Value>, depth: nat): seq<Collected>
    decreases depth, s
  {
    match Included(s.directives, variables)
    case Refused => [Failed]
    case Is(false) => []
    case Is(true) =>
      match s
      case Nested(head, directives, selections) =>
        [Kept(head, MarkOf(directives, if head.FieldNode? then "stream" else "defer", variables), Collect(fragments, selections, variables, depth))]
      case Spread(directives, fragment) =>
        if depth == 0 || fragment !in fragments then [Unexpanded(fragment)]
        else [Expanded(fragment, MarkOf(directives, "defer", variables), Collect(fragments, fragments[fragment], variables, depth - 1))]
  }

  /** The variables the selections themselves use, spreads not followed. */
  function VariablesIn(selections: seq<Selection>): set<string>
    decreases selections
  {
    set i, v | 0 <= i < |selections| && v in VariablesOfOne(selections[i]) :: v
  }

  function VariablesOfOne(s: Selection): set<string>
    decreases s
  {
    DirectiveVariables(s.directives) + if s.Nested? then VariablesIn(s.selections) else {}
  }

  function SpreadsIn(selections: seq<Selection>): set<string>
    decreases selections
  {
    set i, f | 0 <= i < |selections| && f in SpreadsOfOne(selections[i]) :: f
  }

  function SpreadsOfOne(s: Selection): set<string>
    decreases s
  {
    match s
    case Nested(_, _, selections) => SpreadsIn(selections)
    case Spread(_, fragment) => {fragment}
  }

  // ----- what an operation reaches -----

  /** The fragments `p` are spread one inside another, the first one in `selections`. */
  ghost predicate IsPath(fragments: Fragments, selections: seq<Selection>, p: seq<string>)
    decreases |p|
  {
    p == [] || (p[0] in SpreadsIn(selections) && p[0] in fragments && IsPath(fragments, fragments[p[0]], p[1..]))
  }

  ghost function PathEnd(fragments: Fragments, selections: seq<Selection>, p: seq<string>): seq<Selection>
    requires IsPath(fragments, selections, p)
    decreases |p|
  {
    if p == [] then selections else PathEnd(fragments, fragments[p[0]], p[1..])
  }

  /** A variable used in the selections or in a fragment reached from them without passing `avoid`. */
  ghost predicate Uses(fragments: Fragments, selections: seq<Selection>, avoid: set<string>, v: string)
  {
    exists p :: UsesAlong(fragments, selections, avoid, v, p)
  }

  ghost predicate UsesAlong(fragments: Fragments, selections: seq<Selection>, avoid: set<string>, v: string, p: seq<string>)
  {
    IsPath(fragments, selections, p) && (forall f :: f in p ==> f !in avoid) && v in VariablesIn(PathEnd(fragments, selections, p))
  }

  /** A path that meets `more` meets it for a last time, and from there on avoids it. */
  lemma {:induction false} LastMeeting(fragments: Fragments, selections: seq<Selection>, avoid: set<string>, more: set<string>, v: string, p: seq<string>)
    requires UsesAlong(fragments, selections, avoid, v, p)
    ensures Uses(fragments, selections, avoid + more, v)
         || exists f :: f in more && f in fragments && Uses(fragments, fragments[f], avoid + more, v)
    decreases |p|
  {
    if p == [] {
      assert UsesAlong(fragments, selections, avoid + more, v, []);
    } else {
      var rest := p[1..];
      assert UsesAlong(fragments, fragments[p[0]], avoid, v, rest);
      LastMeeting(fragments, fragments[p[0]], avoid, more, v, rest);
      if Uses(fragments, fragments[p[0]], avoid + more, v) && p[0] !in more {
        var q :| UsesAlong(fragments, fragments[p[0]], avoid + more, v, q);
        assert ([p[0]] + q)[1..] == q;
        assert UsesAlong(fragments, selections, avoid + more, v, [p[0]] + q);
      }
    }
  }

  /** Uses through one selection of a set. */
  lemma UsesOne(fragments: Fragments, selections: seq<Selection>, i: nat, avoid: set<string>, v: string)
    requires i < |selections|
    ensures Uses(fragments, [selections[i]], avoid, v) ==> Uses(fragments, selections, avoid, v)
  {
    if Uses(fragments, [selections[i]], avoid, v) {
      var p :| UsesAlong(fragments, [selections[i]], avoid, v, p);
      assert [selections[i]][0] == selections[i];
      if p == [] {
        assert UsesAlong(fragments, selections, avoid, v, []);
      } else {
        assert p[0] in SpreadsIn(selections);
        assert UsesAlong(fragments, selections, avoid, v, p);
      }
    }
  }

  lemma UsesSome(fragments: Fragments, selections: seq<Selection>, avoid: set<string>, v: string, p: seq<string>)
    requires UsesAlong(fragments, selections, avoid, v, p)
    ensures exists i :: 0 <= i < |selections| && Uses(fragments, [selections[i]], avoid, v)
  {
    if p == [] {
      var i :| 0 <= i < |selections| && v in VariablesOfOne(selections[i]);
      assert [selections[i]][0] == selections[i];
      assert UsesAlong(fragments, [selections[i]], avoid, v, []);
    } else {
      var i :| 0 <= i < |selections| && p[0] in SpreadsOfOne(selections[i]);
      assert [selections[i]][0] == selections[i];
      assert UsesAlong(fragments, [selections[i]], avoid, v, p);
    }
  }

  lemma OneSelection(s: Selection)
    ensures VariablesIn([s]) == VariablesOfOne(s) && SpreadsIn([s]) == SpreadsOfOne(s)
  {
    assert [s][0] == s;
    forall v | v in VariablesOfOne(s) ensures v in VariablesIn([s]) { assert v in VariablesOfOne([s][0]); }
    forall f | f in SpreadsOfOne(s) ensures f in SpreadsIn([s]) { assert f in SpreadsOfOne([s][0]); }
  }

  lemma UsesOwn(fragments: Fragments, s: Selection, avoid: set<string>, v: string)
    ensures v in DirectiveVariables(s.directives) ==> Uses(fragments, [s], avoid, v)
    ensures s.Nested? && Uses(fragments, s.selections, avoid, v) ==> Uses(fragments, [s], avoid, v)
  {
    OneSelection(s);
    if v in DirectiveVariables(s.directives) { assert UsesAlong(fragments, [s], avoid, v, []); }
    if s.Nested? && Uses(fragments, s.selections, avoid, v) {
      var p :| UsesAlong(fragments, s.selections, avoid, v, p);
      assert UsesAlong(fragments, [s], avoid, v, p);
    }
  }

  lemma UsesSpread(fragments: Fragments, s: Selection, avoid: set<string>, v: string)
    requires s.Spread? && s.fragment in fragments && s.fragment !in avoid && Uses(fragments, fragments[s.fragment], avoid, v)
    ensures Uses(fragments, [s], avoid, v)
  {
    OneSelection(s);
    var p :| UsesAlong(fragments, fragments[s.fragment], avoid, v, p);
    assert ([s.fragment] + p)[1..] == p;
    assert UsesAlong(fragments, [s], avoid, v, [s.fragment] + p);
  }

  lemma UsedOneWay(fragments: Fragments, s: Selection, avoid: set<string>, v: string)
    requires Uses(fragments, [s], avoid, v)
    ensures || v in DirectiveVariables(s.directives)
            || (s.Nested? && Uses(fragments, s.selections, avoid, v))
            || (s.Spread? && s.fragment in fragments && s.fragment !in avoid && Uses(fragments, fragments[s.fragment], avoid, v))
  {
    OneSelection(s);
    var p :| UsesAlong(fragments, [s], avoid, v, p);
    if s.Nested? {
      if p == [] {
        if v in VariablesIn(s.selections) { assert UsesAlong(fragments, s.selections, avoid, v, []); }
      } else {
        assert UsesAlong(fragments, s.selections, avoid, v, p);
      }
    } else if p != [] {
      assert UsesAlong(fragments, fragments[s.fragment], avoid, v, p[1..]);
    }
  }

  /** A field's or spread's own use: its directives, its selections, or the fragment it spreads. */
  lemma UsesSelection(fragments: Fragments, s: Selection, avoid: set<string>, v: string)
    ensures Uses(fragments, [s], avoid, v) <==>
              || v in DirectiveVariables(s.directives)
              || (s.Nested? && Uses(fragments, s.selections, avoid, v))
              || (s.Spread? && s.fragment in fragments && s.fragment !in avoid && Uses(fragments, fragments[s.fragment], avoid, v))
  {
    UsesOwn(fragments, s, avoid, v);
    if s.Spread? && s.fragment in fragments && s.fragment !in avoid && Uses(fragments, fragments[s.fragment], avoid, v) {
      UsesSpread(fragments, s, avoid, v);
    }
    if Uses(fragments, [s], avoid, v) { UsedOneWay(fragments, s, avoid, v); }
  }

  // ----- the scan -----

  ghost predicate CollectsAll(fragments: Fragments, selections: seq<Selection>, avoid: set<string>, names: set<string>)
  {
    forall v :: Uses(fragments, selections, avoid, v) ==> v in names
  }

  /** What is collected avoiding the fragments `done` as well is, with what those cover, everything. */
  lemma CoversTheRest(fragments: Fragments, selections: seq<Selection>, avoid: set<string>, done: set<string>, names: set<string>)
    requires CollectsAll(fragments, selections, avoid + done, names)
    requires forall f :: f in done && f in fragments ==> CollectsAll(fragments, fragments[f], avoid + done, names)
    ensures CollectsAll(fragments, selections, avoid, names)
  {
    forall v | Uses(fragments, selections, avoid, v)
      ensures v in names
    {
      var p :| UsesAlong(fragments, selections, avoid, v, p);
      LastMeeting(fragments, selections, avoid, done, v, p);
    }
  }

  lemma {:induction false} MoreToAvoid(fragments: Fragments, selections: seq<Selection>, avoid: set<string>, more: set<string>, v: string)
    requires avoid <= more && Uses(fragments, selections, more, v)
    ensures Uses(fragments, selections, avoid, v)
  {
    var p :| UsesAlong(fragments, selections, more, v, p);
    assert UsesAlong(fragments, selections, avoid, v, p);
  }

  lemma AvoidsMore(fragments: Fragments, selections: seq<Selection>, avoid: set<string>, more: set<string>, names: set<string>)
    requires CollectsAll(fragments, selections, avoid, names) && avoid <= more
    ensures CollectsAll(fragments, selections, more, names)
  {
    forall v | Uses(fragments, selections, more, v) ensures v in names { MoreToAvoid(fragments, selections, avoid, more, v); }
  }

  /** The fragments spread so far in this selection set are collected in full, as far as those open above allow. */
  ghost predicate HereCollected(fragments: Fragments, visited: set<string>, here: set<string>, names: set<string>)
  {
    forall f :: f in here && f in fragments ==> CollectsAll(fragments, fragments[f], visited, names)
  }

  ghost predicate OnlyUsed(fragments: Fragments, selections: seq<Selection>, before: set<string>, names: set<string>)
  {
    forall v :: v in names && v !in before ==> Uses(fragments, selections, {}, v)
  }

  /** What was collected while the fragments of this set were marked too. */
  lemma InsideIsCollected(fragments: Fragments, visited: set<string>, here: set<string>, names: set<string>, inside: seq<Selection>)
    requires HereCollected(fragments, visited, here, names) && CollectsAll(fragments, inside, visited + here, names)
    ensures CollectsAll(fragments, inside, visited, names)
  {
    forall f | f in here && f in fragments
      ensures CollectsAll(fragments, fragments[f], visited + here, names)
    {
      AvoidsMore(fragments, fragments[f], visited, visited + here, names);
    }
    CoversTheRest(fragments, inside, visited, here, names);
  }

  /** A fragment scanned while it and its siblings are marked is collected in full. */
  lemma FragmentIsCollected(fragments: Fragments, visited: set<string>, here: set<string>, names: set<string>, f: string)
    requires HereCollected(fragments, visited, here, names) && f in fragments
    requires CollectsAll(fragments, fragments[f], visited + (here + {f}), names)
    ensures HereCollected(fragments, visited, here + {f}, names)
  {
    var done := here + {f};
    forall g | g in done && g in fragments
      ensures CollectsAll(fragments, fragments[g], visited + done, names)
    {
      if g in here {
        AvoidsMore(fragments, fragments[g], visited, visited + done, names);
      }
    }
    CoversTheRest(fragments, fragments[f], visited, done, names);
  }

  lemma SelectionIsCollected(fragments: Fragments, s: Selection, visited: set<string>, here: set<string>, names: set<string>)
    requires HereCollected(fragments, visited, here, names) && DirectiveVariables(s.directives) <= names
    requires s.Nested? ==> CollectsAll(fragments, s.selections, visited, names)
    requires s.Spread? ==> s.fragment in visited + here
    ensures CollectsAll(fragments, [s], visited, names)
  {
    forall v | Uses(fragments, [s], visited, v) ensures v in names { UsesSelection(fragments, s, visited, v); }
  }

  lemma SelectionOnlyUsed(fragments: Fragments, s: Selection, before: set<string>, after: set<string>, inside: seq<Selection>)
    requires if s.Nested? then inside == s.selections else s.fragment in fragments && inside == fragments[s.fragment]
    requires OnlyUsed(fragments, inside, before + DirectiveVariables(s.directives), after)
    ensures OnlyUsed(fragments, [s], before, after)
  {
    forall v | v in after && v !in before ensures Uses(fragments, [s], {}, v) { UsesSelection(fragments, s, {}, v); }
  }

  /** One selection: its directives, then its inside or the fragment it spreads unless that is already marked. */
  method ScanOne(fragments: Fragments, s: Selection, ghost visited: set<string>, ghost here: set<string>, seen: set<string>, names: set<string>)
    returns (names': set<string>, seen': set<string>, ghost here': set<string>)
    requires seen == visited + here && HereCollected(fragments, visited, here, names)
    ensures names <= names' && seen' == visited + here' && HereCollected(fragments, visited, here', names')
    ensures CollectsAll(fragments, [s], visited, names') && OnlyUsed(fragments, [s], names, names')
    decreases fragments.Keys - seen, s
  {
    names', seen', here' := names + DirectiveVariables(s.directives), seen, here;
    match s
    case Nested(_, _, inside) =>
      names' := ScanSelectionSet(fragments, inside, seen, names');
      InsideIsCollected(fragments, visited, here, names', inside);
      SelectionOnlyUsed(fragments, s, names, names', inside);
      SelectionIsCollected(fragments, s, visited, here', names');
    case Spread(_, fragment) =>
      if fragment !in seen {
        seen', here' := seen + {fragment}, here + {fragment};
        if fragment in fragments {
          assert seen' == visited + here';
          names' := ScanSelectionSet(fragments, fragments[fragment], seen', names');
          FragmentIsCollected(fragments, visited, here, names', fragment);
          SelectionOnlyUsed(fragments, s, names, names', fragments[fragment]);
        }
      }
      forall v | v in DirectiveVariables(s.directives) ensures Uses(fragments, [s], {}, v) { UsesSelection(fragments, s, {}, v); }
      SelectionIsCollected(fragments, s, visited, here', names');
  }

  /** `scan_selection_set`: collects everything used from here that no fragment open above already covers, and
      nothing that is not used. */
  method ScanSelectionSet(fragments: Fragments, selections: seq<Selection>, visited: set<string>, names: set<string>) returns (names': set<string>)
    ensures names <= names' && CollectsAll(fragments, selections, visited, names') && OnlyUsed(fragments, selections, names, names')
    decreases fragments.Keys - visited, selections
  {
    names' := names;
    var seen := visited;
    ghost var here: set<string> := {};
    for i := 0 to |selections|
      invariant names <= names' && seen == visited + here && HereCollected(fragments, visited, here, names')
      invariant forall j :: 0 <= j < i ==> CollectsAll(fragments, [selections[j]], visited, names')
      invariant OnlyUsed(fragments, selections, names, names')
    {
      ghost var before := names';
      names', seen, here := ScanOne(fragments, selections[i], visited, here, seen, names');
      forall v | Uses(fragments, [selections[i]], {}, v) ensures Uses(fragments, selections, {}, v) { UsesOne(fragments, selections, i, {}, v); }
    }
    forall v | Uses(fragments, selections, visited, v)
      ensures v in names'
    {
      var p :| UsesAlong(fragments, selections, visited, v, p);
      UsesSome(fragments, selections, visited, v, p);
    }
  }

  // ----- what the scan fixes -----

  /** Both requests give the variable the same value, or both leave it out, as far as a value constraint can tell. */
  ghost predicate GivesAlike(variables: map<string, Value>, others: map<string, Value>, name: string)
  {
    ValuesEqual(Lookup(others, name), Lookup(variables, name))
  }

  /** Directive arguments are booleans, strings and integers, which a value constraint tells apart from everything else. */
  lemma GivenAlike(directives: seq<Directive>, d: Directive, name: string, variables: map<string, Value>, others: map<string, Value>)
    requires d in directives && d.name in {"skip", "include", "defer", "stream"}
    requires forall v :: v in DirectiveVariables(directives) ==> GivesAlike(variables, others, v)
    ensures ValuesEqual(Given(d, name, others), Given(d, name, variables))
  {
    var a := ArgumentOf(d.arguments, name);
    if a.Some? && a.value.VariableRef? {
      var i :| 0 <= i < |directives| && directives[i] == d;
      var j :| 0 <= j < |d.arguments| && d.arguments[j] == Argument(name, a.value);
      assert directives[i].arguments[j].value.name in DirectiveVariables(directives);
    } else if a.Some? {
      EqReflexive(a.value.value);
    }
  }

  lemma CoercedAlike(directives: seq<Directive>, d: Directive, default: Option<bool>, variables: map<string, Value>, others: map<string, Value>)
    requires d in directives && d.name in {"skip", "include", "defer", "stream"}
    requires forall v :: v in DirectiveVariables(directives) ==> GivesAlike(variables, others, v)
    ensures Condition(d, default, others) == Condition(d, default, variables)
    ensures LabelOf(d, others) == LabelOf(d, variables) && CountOf(d, others) == CountOf(d, variables)
  {
    GivenAlike(directives, d, "if", variables, others);
    GivenAlike(directives, d, "label", variables, others);
    GivenAlike(directives, d, "initialCount", variables, others);
  }

  lemma DirectivesAlike(directives: seq<Directive>, variables: map<string, Value>, others: map<string, Value>)
    requires forall v :: v in DirectiveVariables(directives) ==> GivesAlike(variables, others, v)
    ensures Included(directives, others) == Included(directives, variables)
    ensures forall name :: name in {"defer", "stream"} ==> MarkOf(directives, name, others) == MarkOf(directives, name, variables)
  {
    forall name | name in {"skip", "include", "defer", "stream"} && FirstNamed(directives, name).Some?
      ensures forall default ::
        Condition(FirstNamed(directives, name).value, default, others) == Condition(FirstNamed(directives, name).value, default, variables)
      ensures LabelOf(FirstNamed(directives, name).value, others) == LabelOf(FirstNamed(directives, name).value, variables)
      ensures CountOf(FirstNamed(directives, name).value, others) == CountOf(FirstNamed(directives, name).value, variables)
    {
      forall default
        ensures Condition(FirstNamed(directives, name).value, default, others) == Condition(FirstNamed(directives, name).value, default, variables)
      {
        CoercedAlike(directives, FirstNamed(directives, name).value, default, variables, others);
      }
      CoercedAlike(directives, FirstNamed(directives, name).value, None, variables, others);
    }
  }

  /** Requests that give every used variable alike collect the same selections, deferred and streamed alike. */
  lemma {:induction false} CollectsAlike(fragments: Fragments, selections: seq<Selection>, variables: map<string, Value>, others: map<string, Value>, depth: nat)
    requires forall v :: Uses(fragments, selections, {}, v) ==> GivesAlike(variables, others, v)
    ensures Collect(fragments, selections, others, depth) == Collect(fragments, selections, variables, depth)
    decreases depth, selections
  {
    if selections == [] {
    } else {
      var s, rest := selections[0], selections[1..];
      forall v | Uses(fragments, [s], {}, v) ensures GivesAlike(variables, others, v) { UsesOne(fragments, selections, 0, {}, v); }
      forall v | Uses(fragments, rest, {}, v) ensures GivesAlike(variables, others, v) { UsesRest(fragments, selections, v); }
      OneCollectsAlike(fragments, s, variables, others, depth);
      CollectsAlike(fragments, rest, variables, others, depth);
    }
  }

  lemma UsesRest(fragments: Fragments, selections: seq<Selection>, v: string)
    requires selections != [] && Uses(fragments, selections[1..], {}, v)
    ensures Uses(fragments, selections, {}, v)
  {
    var p :| UsesAlong(fragments, selections[1..], {}, v, p);
    UsesSome(fragments, selections[1..], {}, v, p);
    var i :| 0 <= i < |selections[1..]| && Uses(fragments, [selections[1..][i]], {}, v);
    assert selections[1..][i] == selections[i + 1];
    UsesOne(fragments, selections, i + 1, {}, v);
  }

  lemma {:induction false} OneCollectsAlike(fragments: Fragments, s: Selection, variables: map<string, Value>, others: map<string, Value>, depth: nat)
    requires forall v :: Uses(fragments, [s], {}, v) ==> GivesAlike(variables, others, v)
    ensures CollectOne(fragments, s, others, depth) == CollectOne(fragments, s, variables, depth)
    decreases depth, s
  {
    forall v | v in DirectiveVariables(s.directives) ensures GivesAlike(variables, others, v) { UsesSelection(fragments, s, {}, v); }
    DirectivesAlike(s.directives, variables, others);
    match s
    case Nested(_, _, inside) =>
      forall v | Uses(fragments, inside, {}, v) ensures GivesAlike(variables, others, v) { UsesSelection(fragments, s, {}, v); }
      CollectsAlike(fragments, inside, variables, others, depth);
    case Spread(_, fragment) =>
      if depth > 0 && fragment in fragments {
        forall v | Uses(fragments, fragments[fragment], {}, v) ensures GivesAlike(variables, others, v) { UsesSelection(fragments, s, {}, v); }
        CollectsAlike(fragments, fragments[fragment], variables, others, depth - 1);
      }
  }

  /** An operation with the fragments of its document. */
  datatype Document = Document(operation: seq<Selection>, fragments: Fragments)

  /** The selections a request collects, spreads followed as deep as the document has fragments: all of them where no fragment
      spreads itself. */
  function Selections(doc: Document, facts: Request): seq<Collected>
  {
    Collect(doc.fragments, doc.operation, facts.variables, |doc.fragments|)
  }

  ghost predicate IsDirectiveConstraint(doc: Document, facts: Request, c: Constraint)
  {
    exists v :: Uses(doc.fragments, doc.operation, {}, v) && c == ValueIs(Variables, [v], Lookup(facts.variables, v))
  }

  /** A request on which the scan's constraints hold collects what the builder's request did, to any depth. */
  lemma CollectionIsPinned(doc: Document, built: Request, facts: Request, depth: nat)
    requires forall c :: IsDirectiveConstraint(doc, built, c) ==> Matches(c, facts)
    ensures Collect(doc.fragments, doc.operation, facts.variables, depth) == Collect(doc.fragments, doc.operation, built.variables, depth)
  {
    forall v | Uses(doc.fragments, doc.operation, {}, v)
      ensures GivesAlike(built.variables, facts.variables, v)
    {
      assert IsDirectiveConstraint(doc, built, ValueIs(Variables, [v], Lookup(built.variables, v)));
      OneKey(facts, Variables, v);
    }
    CollectsAlike(doc.fragments, doc.operation, built.variables, facts.variables, depth);
  }

  // ----- nothing is left unexpanded, nothing is scanned for naught -----

  /** No fragment is spread inside itself, however far down. */
  ghost predicate NoCycles(doc: Document)
  {
    forall p :: IsPath(doc.fragments, doc.operation, p) ==> Distinct(p)
  }

  ghost predicate PathsWithin(fragments: Fragments, selections: seq<Selection>, depth: nat)
  {
    forall p :: IsPath(fragments, selections, p) ==> |p| <= depth
  }

  lemma FewerPaths(fragments: Fragments, selections: seq<Selection>, inside: seq<Selection>, depth: nat)
    requires PathsWithin(fragments, selections, depth) && SpreadsIn(inside) <= SpreadsIn(selections)
    ensures PathsWithin(fragments, inside, depth)
  {
    forall p | IsPath(fragments, inside, p) ensures |p| <= depth { assert IsPath(fragments, selections, p); }
  }

  lemma SpreadsOfPart(selections: seq<Selection>)
    requires selections != []
    ensures SpreadsIn([selections[0]]) <= SpreadsIn(selections) && SpreadsIn(selections[1..]) <= SpreadsIn(selections)
  {
    OneSelection(selections[0]);
    forall f | f in SpreadsIn(selections[1..]) ensures f in SpreadsIn(selections)
    {
      var i :| 0 <= i < |selections[1..]| && f in SpreadsOfOne(selections[1..][i]);
      assert f in SpreadsOfOne(selections[i + 1]);
    }
  }

  /** Following spreads deeper than any path goes collects nothing new. */
  lemma {:induction false} DeepEnough(fragments: Fragments, selections: seq<Selection>, variables: map<string, Value>, depth: nat, deeper: nat)
    requires PathsWithin(fragments, selections, depth) && depth <= deeper
    ensures Collect(fragments, selections, variables, deeper) == Collect(fragments, selections, variables, depth)
    decreases depth, selections
  {
    if selections == [] {
    } else {
      var s, rest := selections[0], selections[1..];
      SpreadsOfPart(selections);
      FewerPaths(fragments, selections, [s], depth);
      FewerPaths(fragments, selections, rest, depth);
      OneDeepEnough(fragments, s, variables, depth, deeper);
      DeepEnough(fragments, rest, variables, depth, deeper);
    }
  }

  lemma {:induction false} OneDeepEnough(fragments: Fragments, s: Selection, variables: map<string, Value>, depth: nat, deeper: nat)
    requires PathsWithin(fragments, [s], depth) && depth <= deeper
    ensures CollectOne(fragments, s, variables, deeper) == CollectOne(fragments, s, variables, depth)
    decreases depth, s, 1
  {
    if s.Nested? {
      OneSelection(s);
      FewerPaths(fragments, [s], s.selections, depth);
      DeepEnough(fragments, s.selections, variables, depth, deeper);
      SameInside(fragments, s, variables, depth, deeper);
    } else if s.fragment in fragments {
      SpreadDeepEnough(fragments, s, variables, depth, deeper);
    }
  }

  lemma {:induction false} SpreadDeepEnough(fragments: Fragments, s: Selection, variables: map<string, Value>, depth: nat, deeper: nat)
    requires s.Spread? && s.fragment in fragments && PathsWithin(fragments, [s], depth) && depth <= deeper
    ensures CollectOne(fragments, s, variables, deeper) == CollectOne(fragments, s, variables, depth)
    decreases depth, s, 0
  {
    PathsOfFragment(fragments, s, depth);
    DeepEnough(fragments, fragments[s.fragment], variables, depth - 1, deeper - 1);
    SameExpanded(fragments, s, variables, depth, depth - 1, deeper, deeper - 1);
  }

  lemma SameInside(fragments: Fragments, s: Selection, variables: map<string, Value>, depth: nat, deeper: nat)
    requires s.Nested? && Collect(fragments, s.selections, variables, deeper) == Collect(fragments, s.selections, variables, depth)
    ensures CollectOne(fragments, s, variables, deeper) == CollectOne(fragments, s, variables, depth)
  {
  }

  lemma SameExpanded(fragments: Fragments, s: Selection, variables: map<string, Value>, depth: nat, below: nat, deeper: nat, deeperBelow: nat)
    requires s.Spread? && s.fragment in fragments && depth == below + 1 && deeper == deeperBelow + 1
    requires Collect(fragments, fragments[s.fragment], variables, deeperBelow) == Collect(fragments, fragments[s.fragment], variables, below)
    ensures CollectOne(fragments, s, variables, deeper) == CollectOne(fragments, s, variables, depth)
  {
  }

  lemma PathsOfFragment(fragments: Fragments, s: Selection, depth: nat)
    requires s.Spread? && s.fragment in fragments && PathsWithin(fragments, [s], depth)
    ensures depth > 0 && PathsWithin(fragments, fragments[s.fragment], depth - 1)
  {
    OneSelection(s);
    var f := s.fragment;
    assert [f][1..] == [] && IsPath(fragments, [s], [f]);
    forall p | IsPath(fragments, fragments[f], p) ensures |p| <= depth - 1
    {
      assert ([f] + p)[1..] == p && IsPath(fragments, [s], [f] + p);
    }
  }

  lemma {:induction false} PathOfFragments(fragments: Fragments, selections: seq<Selection>, p: seq<string>)
    requires IsPath(fragments, selections, p)
    ensures forall f :: f in p ==> f in fragments
    decreases |p|
  {
    if p == [] {
    } else {
      PathOfFragments(fragments, fragments[p[0]], p[1..]);
      assert p == [p[0]] + p[1..];
    }
  }

  lemma {:induction false} DistinctWithin(p: seq<string>, all: set<string>)
    requires Distinct(p) && forall f :: f in p ==> f in all
    ensures |p| <= |all|
    decreases |p|
  {
    if p == [] {
    } else {
      DistinctRest(p);
      DistinctWithin(p[1..], all - {p[0]});
    }
  }

  /** Without cycles the selections are collected in full. */
  lemma SelectionsAreFull(doc: Document, facts: Request, deeper: nat)
    requires NoCycles(doc) && |doc.fragments| <= deeper
    ensures Collect(doc.fragments, doc.operation, facts.variables, deeper) == Selections(doc, facts)
  {
    forall p | IsPath(doc.fragments, doc.operation, p)
      ensures |p| <= |doc.fragments|
    {
      PathOfFragments(doc.fragments, doc.operation, p);
      DistinctWithin(p, doc.fragments.Keys);
      assert |doc.fragments.Keys| == |doc.fragments|;
    }
    DeepEnough(doc.fragments, doc.operation, facts.variables, |doc.fragments|, deeper);
  }

  // ----- what is collected, in plain terms -----

  /** A selection stays when its first @skip, if any, says no and its first @include, if any, says yes. */
  ghost predicate Stays(directives: seq<Directive>, variables: map<string, Value>)
  {
    && (FirstNamed(directives, "skip").Some? ==> Given(FirstNamed(directives, "skip").value, "if", variables) == Some(VBool(false)))
    && (FirstNamed(directives, "include").Some? ==> Given(FirstNamed(directives, "include").value, "if", variables) == Some(VBool(true)))
  }

  lemma StaysIff(directives: seq<Directive>, variables: map<string, Value>)
    ensures Stays(directives, variables) <==> Included(directives, variables) == Is(true)
  {
  }

  /** Going down through the selections at the positions `at`, into the fragment wherever one is spread, everything stays and the
      last selection is a field or inline fragment with this head; at most `depth` spreads are met. */
  ghost predicate Leads(fragments: Fragments, selections: seq<Selection>, variables: map<string, Value>, depth: nat, at: seq<nat>, head: Head)
    decreases |at|, 0
  {
    at != [] && at[0] < |selections| && LeadsInto(fragments, selections[at[0]], variables, depth, at[1..], head)
  }

  ghost predicate LeadsInto(fragments: Fragments, s: Selection, variables: map<string, Value>, depth: nat, at: seq<nat>, head: Head)
    decreases |at|, 1
  {
    && Stays(s.directives, variables)
    && if s.Nested? then (at == [] && s.head == head) || Leads(fragments, s.selections, variables, depth, at, head)
       else depth > 0 && s.fragment in fragments && Leads(fragments, fragments[s.fragment], variables, depth - 1, at, head)
  }

  ghost predicate IsThere(tree: seq<Collected>, head: Head)
    decreases tree
  {
    exists i :: 0 <= i < |tree| && IsIn(tree[i], head)
  }

  ghost predicate IsIn(c: Collected, head: Head)
    decreases c
  {
    match c
    case Kept(h, _, selections) => h == head || IsThere(selections, head)
    case Expanded(_, _, selections) => IsThere(selections, head)
    case _ => false
  }

  lemma ThereInParts(a: seq<Collected>, b: seq<Collected>, head: Head)
    ensures IsThere(a + b, head) <==> IsThere(a, head) || IsThere(b, head)
  {
    if IsThere(a, head) { var i :| 0 <= i < |a| && IsIn(a[i], head); assert (a + b)[i] == a[i]; }
    if IsThere(b, head) { var i :| 0 <= i < |b| && IsIn(b[i], head); assert (a + b)[|a| + i] == b[i]; }
  }

  lemma ThereAlone(c: Collected, head: Head)
    ensures IsThere([c], head) <==> IsIn(c, head)
  {
    assert [c][0] == c;
  }

  ghost predicate LeadsSomehow(fragments: Fragments, selections: seq<Selection>, variables: map<string, Value>, depth: nat, head: Head)
  {
    exists at :: Leads(fragments, selections, variables, depth, at, head)
  }

  ghost predicate IntoSomehow(fragments: Fragments, s: Selection, variables: map<string, Value>, depth: nat, head: Head)
  {
    exists at :: LeadsInto(fragments, s, variables, depth, at, head)
  }

  /** A way down starts at the first selection or at a later one. */
  lemma LeadsInParts(fragments: Fragments, selections: seq<Selection>, variables: map<string, Value>, depth: nat, head: Head)
    requires selections != []
    ensures LeadsSomehow(fragments, selections, variables, depth, head) <==>
              LeadsSomehow(fragments, [selections[0]], variables, depth, head) || LeadsSomehow(fragments, selections[1..], variables, depth, head)
  {
    if at :| Leads(fragments, selections, variables, depth, at, head) {
      if at[0] == 0 {
        assert Leads(fragments, [selections[0]], variables, depth, at, head);
      } else {
        var later := [at[0] - 1] + at[1..];
        assert later[1..] == at[1..];
        assert Leads(fragments, selections[1..], variables, depth, later, head);
      }
    }
    if at :| Leads(fragments, [selections[0]], variables, depth, at, head) { assert Leads(fragments, selections, variables, depth, at, head); }
    if at :| Leads(fragments, selections[1..], variables, depth, at, head) {
      var earlier := [at[0] + 1] + at[1..];
      assert earlier[1..] == at[1..];
      assert Leads(fragments, selections, variables, depth, earlier, head);
    }
  }

  lemma LeadsOne(fragments: Fragments, s: Selection, variables: map<string, Value>, depth: nat, head: Head)
    ensures LeadsSomehow(fragments, [s], variables, depth, head) <==> IntoSomehow(fragments, s, variables, depth, head)
  {
    assert [s][0] == s;
    forall at | Leads(fragments, [s], variables, depth, at, head) ensures LeadsInto(fragments, s, variables, depth, at[1..], head) {}
    forall at | LeadsInto(fragments, s, variables, depth, at, head) ensures Leads(fragments, [s], variables, depth, [0] + at, head)
    {
      assert ([0] + at)[1..] == at;
    }
  }

  lemma LeadsNested(fragments: Fragments, s: Selection, variables: map<string, Value>, depth: nat, head: Head)
    requires s.Nested? && Stays(s.directives, variables)
    ensures IntoSomehow(fragments, s, variables, depth, head) <==>
              s.head == head || LeadsSomehow(fragments, s.selections, variables, depth, head)
  {
    if s.head == head { assert LeadsInto(fragments, s, variables, depth, [], head); }
    forall at | Leads(fragments, s.selections, variables, depth, at, head) ensures LeadsInto(fragments, s, variables, depth, at, head) {}
    forall at | LeadsInto(fragments, s, variables, depth, at, head)
      ensures (at == [] && s.head == head) || Leads(fragments, s.selections, variables, depth, at, head)
    {
    }
  }

  lemma LeadsSpread(fragments: Fragments, s: Selection, variables: map<string, Value>, depth: nat, below: nat, head: Head)
    requires s.Spread? && Stays(s.directives, variables) && depth == below + 1 && s.fragment in fragments
    ensures IntoSomehow(fragments, s, variables, depth, head) <==> LeadsSomehow(fragments, fragments[s.fragment], variables, below, head)
  {
    forall at | Leads(fragments, fragments[s.fragment], variables, below, at, head) ensures LeadsInto(fragments, s, variables, depth, at, head) {}
    forall at | LeadsInto(fragments, s, variables, depth, at, head) ensures Leads(fragments, fragments[s.fragment], variables, below, at, head) {}
  }

  /** Collected is exactly what some way down through selections that stay leads to. */
  lemma {:induction false} CollectedIff(fragments: Fragments, selections: seq<Selection>, variables: map<string, Value>, depth: nat, head: Head)
    ensures IsThere(Collect(fragments, selections, variables, depth), head) <==> LeadsSomehow(fragments, selections, variables, depth, head)
    decreases depth, selections
  {
    if selections == [] {
    } else {
      var s, rest := selections[0], selections[1..];
      OneCollectedIff(fragments, s, variables, depth, head);
      CollectedIff(fragments, rest, variables, depth, head);
      ThereInParts(CollectOne(fragments, s, variables, depth), Collect(fragments, rest, variables, depth), head);
      LeadsInParts(fragments, selections, variables, depth, head);
    }
  }

  lemma {:induction false} OneCollectedIff(fragments: Fragments, s: Selection, variables: map<string, Value>, depth: nat, head: Head)
    ensures IsThere(CollectOne(fragments, s, variables, depth), head) <==> LeadsSomehow(fragments, [s], variables, depth, head)
    decreases depth, s
  {
    StaysIff(s.directives, variables);
    LeadsOne(fragments, s, variables, depth, head);
    if !Stays(s.directives, variables) {
      NothingThere(fragments, s, variables, depth, head);
    } else if s.Nested? {
      CollectedIff(fragments, s.selections, variables, depth, head);
      LeadsNested(fragments, s, variables, depth, head);
      KeptThere(fragments, s, variables, depth, head);
    } else if depth > 0 && s.fragment in fragments {
      CollectedIff(fragments, fragments[s.fragment], variables, depth - 1, head);
      LeadsSpread(fragments, s, variables, depth, depth - 1, head);
      ExpandedThere(fragments, s, variables, depth, depth - 1, head);
    } else {
      ThereAlone(Unexpanded(s.fragment), head);
    }
  }

  lemma KeptThere(fragments: Fragments, s: Selection, variables: map<string, Value>, depth: nat, head: Head)
    requires s.Nested? && Included(s.directives, variables) == Is(true)
    ensures IsThere(CollectOne(fragments, s, variables, depth), head) <==> s.head == head || IsThere(Collect(fragments, s.selections, variables, depth), head)
  {
    ThereAlone(CollectOne(fragments, s, variables, depth)[0], head);
    assert CollectOne(fragments, s, variables, depth) == [CollectOne(fragments, s, variables, depth)[0]];
  }

  lemma ExpandedThere(fragments: Fragments, s: Selection, variables: map<string, Value>, depth: nat, below: nat, head: Head)
    requires s.Spread? && Included(s.directives, variables) == Is(true) && depth == below + 1 && s.fragment in fragments
    ensures IsThere(CollectOne(fragments, s, variables, depth), head) <==> IsThere(Collect(fragments, fragments[s.fragment], variables, below), head)
  {
    ThereAlone(CollectOne(fragments, s, variables, depth)[0], head);
    assert CollectOne(fragments, s, variables, depth) == [CollectOne(fragments, s, variables, depth)[0]];
  }

  lemma NothingThere(fragments: Fragments, s: Selection, variables: map<string, Value>, depth: nat, head: Head)
    requires Included(s.directives, variables) != Is(true)
    ensures !IsThere(CollectOne(fragments, s, variables, depth), head)
  {
    if Included(s.directives, variables).Refused? { ThereAlone(Failed, head); }
  }

  /** One field, or for @defer one fragment, under that directive with `if: $x`. */
  function OneDirective(name: string): Document
  {
    Document([Nested(HeadFor(name), [Directive(name, [Argument("if", VariableRef("x"))])], [])], map[])
  }

  function HeadFor(name: string): Head
  {
    if name == "defer" then InlineFragment(None) else FieldNode("a")
  }

  lemma CollectsOneDirective(name: string, b: bool)
    requires name in {"skip", "include", "defer", "stream"}
    ensures var doc, variables := OneDirective(name), map["x" := VBool(b)];
            Collect(doc.fragments, doc.operation, variables, 0) == CollectOne(doc.fragments, doc.operation[0], variables, 0)
    ensures var ds, variables := OneDirective(name).operation[0].directives, map["x" := VBool(b)];
            && FirstNamed(ds, name) == Some(ds[0]) && (forall other :: other != name ==> FirstNamed(ds, other) == None)
            && Given(ds[0], "if", variables) == Some(VBool(b)) && Given(ds[0], "label", variables) == Given(ds[0], "initialCount", variables) == None
  {
    var doc, variables := OneDirective(name), map["x" := VBool(b)];
    assert doc.operation[1..] == [];
    assert Collect(doc.fragments, [], variables, 0) == [];
    var d := doc.operation[0].directives[0];
    assert doc.operation[0].directives == [d] && [d][1..] == [];
    assert d.arguments == [Argument("if", VariableRef("x"))] && d.arguments[1..] == [];
    assert ArgumentOf(d.arguments, "label") == ArgumentOf([], "label") == None;
    assert ArgumentOf(d.arguments, "initialCount") == ArgumentOf([], "initialCount") == None;
    forall other | other != name ensures FirstNamed([d], other) == None { assert FirstAt([], other) == 0; }
  }

  /** Each of the four directives lets a variable decide what is collected, so none may be left out of the scan. */
  lemma EachDirectiveDecides(name: string, b: bool)
    requires name in {"skip", "include", "defer", "stream"}
    ensures Selections(OneDirective(name), Request(map["x" := VBool(b)], map[])) ==
              if name == "skip" then (if b then [] else [Kept(HeadFor(name), Is(Plain), [])])
              else if name == "include" then (if b then [Kept(HeadFor(name), Is(Plain), [])] else [])
              else [Kept(HeadFor(name), Is(if b then Marked(None, 0) else Plain), [])]
  {
    CollectsOneDirective(name, b);
  }

  /** `directive_variable_constraints`: one value constraint for exactly the variables some reachable plan-time directive
      argument names; a request on which they hold collects the same selections, deferred and streamed alike. */
  method DirectiveVariableConstraints(doc: Document, facts: Request) returns (cs: seq<Constraint>)
    ensures forall c :: c in cs <==> IsDirectiveConstraint(doc, facts, c)
    ensures forall other, depth: nat :: ConstraintsMatch(cs, other) ==>
              Collect(doc.fragments, doc.operation, other.variables, depth) == Collect(doc.fragments, doc.operation, facts.variables, depth)
  {
    var names := ScanSelectionSet(doc.fragments, doc.operation, {}, {});
    cs := [];
    var todo := names;
    while todo != {}
      invariant todo <= names
      invariant forall c :: c in cs <==> exists v :: v in names - todo && c == ValueIs(Variables, [v], Lookup(facts.variables, v))
    {
      var v :| v in todo;
      cs := cs + [ValueIs(Variables, [v], Lookup(facts.variables, v))];
      todo := todo - {v};
    }
    ScanIsAll(doc, facts, names, cs);
    forall other, depth: nat | ConstraintsMatch(cs, other)
      ensures Collect(doc.fragments, doc.operation, other.variables, depth) == Collect(doc.fragments, doc.operation, facts.variables, depth)
    {
      CollectionIsPinned(doc, facts, other, depth);
    }
  }

  lemma ScanIsAll(doc: Document, facts: Request, names: set<string>, cs: seq<Constraint>)
    requires CollectsAll(doc.fragments, doc.operation, {}, names) && OnlyUsed(doc.fragments, doc.operation, {}, names)
    requires forall c :: c in cs <==> exists v :: v in names && c == ValueIs(Variables, [v], Lookup(facts.variables, v))
    ensures forall c :: c in cs <==> IsDirectiveConstraint(doc, facts, c)
  {
  }
}
