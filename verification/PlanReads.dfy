/** What a plan resolver can look at while planning, and what each look leaves behind: the context gate, the
    tracked variables and the field's arguments. */
module PlanReads {
  import opened Wrappers
  import opened Constraints

  // ----- a field's arguments -----

  /** Where an argument's coerced value comes from: the document or the schema, one variable (with the argument's
      default), or variables nested in a literal. */
  datatype ArgSource =
    | Literal(value: Value)
    | Direct(variable: string, default: Option<Value>)
    | Nested(variables: seq<string>, build: seq<Option<Value>> -> Value)

  type Args = map<string, ArgSource>

  function VariablesOf(facts: Request, names: seq<string>): (r: seq<Option<Value>>)
    ensures |r| == |names| && forall i :: 0 <= i < |names| ==> r[i] == Lookup(facts.variables, names[i])
  {
    seq(|names|, i requires 0 <= i < |names| => Lookup(facts.variables, names[i]))
  }

  /** The coerced argument; None when it was omitted. */
  function Coerced(facts: Request, source: ArgSource): Option<Value>
  {
    match source
    case Literal(value) => Some(value)
    case Direct(variable, default) => if variable in facts.variables then Some(facts.variables[variable]) else default
    case Nested(names, build) => Some(build(VariablesOf(facts, names)))
  }

  function Arg(facts: Request, args: Args, name: string): Option<Value>
  {
    if name in args then Coerced(facts, args[name]) else None
  }

  // ----- reads and their answers -----

  datatype Read =
    | ContextEval(key: string)
    | ContextIs(key: string, expected: Value)
    | ContextHas(key: string)
    | VariableItem(name: string)
    | VariableGet(name: string)
    | VariableHas(name: string)
    | VariableKeys
    | ArgItem(name: string)
    | ArgGet(name: string)
    | ArgIs(name: string, expected: Value)
    | ArgHas(name: string)
    | ArgRaw
    | ArgIsVariable(name: string)
    | ArgSourceTag(name: string)

  datatype Answer = AValue(value: Option<Value>) | ABool(b: bool) | AKeys(keys: set<string>) | ADict(entries: map<string, Value>) | ATag(tag: string)

  function RawArgs(facts: Request, args: Args): map<string, Value>
  {
    map name | name in args && Coerced(facts, args[name]).Some? :: Coerced(facts, args[name]).value
  }

  predicate IsDirect(args: Args, name: string) { name in args && args[name].Direct? }

  predicate IsNested(args: Args, name: string) { name in args && args[name].Nested? }

  /** The answer to a read; None when the read raises, which aborts planning. */
  function AnswerTo(facts: Request, args: Args, r: Read): Option<Answer>
  {
    match r
    case ContextEval(key) => if key in facts.context then Some(AValue(Some(facts.context[key]))) else None
    case ContextIs(key, expected) => if key in facts.context then Some(ABool(ValuesEqual(Some(facts.context[key]), Some(expected)))) else None
    case ContextHas(key) => Some(ABool(key in facts.context))
    case VariableItem(name) => if name in facts.variables then Some(AValue(Some(facts.variables[name]))) else None
    case VariableGet(name) => Some(AValue(Lookup(facts.variables, name)))
    case VariableHas(name) => Some(ABool(name in facts.variables))
    case VariableKeys => Some(AKeys(facts.variables.Keys))
    case ArgItem(name) => if Arg(facts, args, name).Some? then Some(AValue(Arg(facts, args, name))) else None
    case ArgGet(name) => Some(AValue(Arg(facts, args, name)))
    case ArgIs(name, expected) => Some(ABool(ValuesEqual(Some(OrNull(Arg(facts, args, name))), Some(expected))))
    case ArgHas(name) => Some(ABool(Arg(facts, args, name).Some?))
    case ArgRaw => Some(ADict(RawArgs(facts, args)))
    case ArgIsVariable(name) => Some(ABool(IsDirect(args, name)))
    case ArgSourceTag(name) => if IsNested(args, name) then None else Some(ATag("var:" + if IsDirect(args, name) then args[name].variable else name))
  }

  /** `dict.get(name)` without a default. */
  function OrNull(v: Option<Value>): Value
  {
    if v.Some? then v.value else VNull
  }

  // ----- what a read leaves behind -----

  /** What the gate and the tracked variables append to the sink. */
  function Recorded(facts: Request, r: Read): seq<Constraint>
  {
    match r
    case ContextEval(key) => [ValueIs(Context, [key], Lookup(facts.context, key))]
    case ContextIs(key, expected) =>
      [Exists(Context, [key], true), Equality(Context, [key], expected, ValuesEqual(Lookup(facts.context, key), Some(expected)))]
    case ContextHas(key) => [Exists(Context, [key], key in facts.context)]
    case VariableItem(name) => [ValueIs(Variables, [name], Lookup(facts.variables, name))]
    case VariableGet(name) => [ValueIs(Variables, [name], Lookup(facts.variables, name))]
    case VariableHas(name) => [Exists(Variables, [name], name in facts.variables)]
    case VariableKeys => [KeysAre(Variables, [], facts.variables.Keys)]
    case _ => []
  }

  datatype Check = Check(name: string, expected: Value, passed: bool)

  /** The argument accessor's bookkeeping. */
  datatype Book = Book(literalReads: set<string>, placeholdered: set<string>, membership: set<string>, equality: seq<Check>)

  const EMPTY_BOOK := Book({}, {}, {}, [])

  function Observe(args: Args, name: string): set<string>
  {
    if IsDirect(args, name) || IsNested(args, name) then {name} else {}
  }

  function FromVariables(args: Args): set<string>
  {
    set name | name in args && (args[name].Direct? || args[name].Nested?)
  }

  function Noted(facts: Request, args: Args, book: Book, r: Read): Book
  {
    match r
    case ArgItem(name) => book.(literalReads := book.literalReads + Observe(args, name))
    case ArgGet(name) => book.(literalReads := book.literalReads + Observe(args, name))
    case ArgIs(name, expected) =>
      if IsDirect(args, name)
      then book.(equality := book.equality + [Check(name, expected, ValuesEqual(Some(OrNull(Arg(facts, args, name))), Some(expected)))])
      else book.(literalReads := book.literalReads + Observe(args, name))
    case ArgHas(name) => book.(membership := book.membership + if IsDirect(args, name) then {name} else {})
    case ArgRaw => book.(literalReads := book.literalReads + FromVariables(args))
    case ArgSourceTag(name) => book.(placeholdered := book.placeholdered + if IsDirect(args, name) then {name} else {})
    case _ => book
  }

  // ----- the answers in plain terms -----

  /** What the argument is on this request: its literal, its variable's value or, that left out, the argument's default, or what
      the literal around its variables builds from theirs; an argument with none of these is omitted. */
  ghost predicate HasArg(facts: Request, args: Args, name: string, value: Option<Value>)
  {
    if name !in args then value == None
    else
      match args[name]
      case Literal(v) => value == Some(v)
      case Direct(variable, default) => value == if variable in facts.variables then Some(facts.variables[variable]) else default
      case Nested(names, build) => exists given :: GivenTo(facts, names, given) && value == Some(build(given))
  }

  ghost predicate GivenTo(facts: Request, names: seq<string>, given: seq<Option<Value>>)
  {
    |given| == |names| && forall i :: 0 <= i < |names| ==>
      (names[i] in facts.variables ==> given[i] == Some(facts.variables[names[i]])) && (names[i] !in facts.variables ==> given[i] == None)
  }

  lemma ArgIsIts(facts: Request, args: Args, name: string)
    ensures HasArg(facts, args, name, Arg(facts, args, name))
  {
    if name in args && args[name].Nested? { assert GivenTo(facts, args[name].variables, VariablesOf(facts, args[name].variables)); }
  }

  /** An outcome that says whether the value is the expected one: of its very type and `==` to it, which for a pinned value is to
      be it. */
  ghost predicate Compares(value: Value, expected: Value, passed: bool)
  {
    && (passed <==> SameType(value, expected) && PyEq(value, expected))
    && (Pinned(expected) ==> (passed <==> value == expected))
  }

  lemma EqualityCompares(value: Value, expected: Value)
    ensures Compares(value, expected, ValuesEqual(Some(value), Some(expected)))
  {
    PinsExactly(expected);
    EqReflexive(expected);
  }

  /** The shared constraint list of the plan being built. */
  class Sink {
    var constraints: seq<Constraint>

    constructor ()
      ensures constraints == []
    {
      constraints := [];
    }

    method Append(c: Constraint)
      modifies this
      ensures constraints == old(constraints) + [c]
    {
      constraints := constraints + [c];
    }
  }

  /** `info.context`: the eval family, which returns real values and records. */
  class ContextGate {
    const facts: Request
    const sink: Sink

    constructor (facts: Request, sink: Sink)
      ensures this.facts == facts && this.sink == sink
    {
      this.facts, this.sink := facts, sink;
    }

    method Eval(key: string) returns (value: Option<Value>)
      modifies sink
      ensures value == if key in facts.context then Some(facts.context[key]) else None
      ensures value.Some? ==> sink.constraints == old(sink.constraints) + [ValueIs(Context, [key], value)]
      ensures value.None? ==> AnswerTo(facts, map[], ContextEval(key)).None? && sink.constraints == old(sink.constraints)
      ensures value.Some? ==> AnswerTo(facts, map[], ContextEval(key)) == Some(AValue(value))
      ensures value.Some? ==> sink.constraints == old(sink.constraints) + Recorded(facts, ContextEval(key))
    {
      value := Lookup(facts.context, key);
      if value.Some? {
        sink.Append(ValueIs(Context, [key], value));
      }
    }

    method EvalIs(key: string, expected: Value) returns (passed: Option<bool>)
      modifies sink
      ensures if key in facts.context then passed.Some? && Compares(facts.context[key], expected, passed.value) else passed == None
      ensures passed.None? ==> AnswerTo(facts, map[], ContextIs(key, expected)).None? && sink.constraints == old(sink.constraints)
      ensures passed.Some? ==> AnswerTo(facts, map[], ContextIs(key, expected)) == Some(ABool(passed.value))
      ensures passed.Some? ==> sink.constraints == old(sink.constraints) + Recorded(facts, ContextIs(key, expected))
    {
      var value := Lookup(facts.context, key);
      if value.None? {
        return None;
      }
      passed := Some(ValuesEqual(value, Some(expected)));
      EqualityCompares(value.value, expected);
      sink.Append(Exists(Context, [key], true));
      sink.Append(Equality(Context, [key], expected, passed.value));
    }

    method EvalHas(key: string) returns (present: bool)
      modifies sink
      ensures present <==> key in facts.context
      ensures AnswerTo(facts, map[], ContextHas(key)) == Some(ABool(present))
      ensures sink.constraints == old(sink.constraints) + Recorded(facts, ContextHas(key))
    {
      present := key in facts.context;
      sink.Append(Exists(Context, [key], present));
    }
  }

  /** `info.variable_values`: every read is an eval. */
  class TrackedVariables {
    const facts: Request
    const sink: Sink

    constructor (facts: Request, sink: Sink)
      ensures this.facts == facts && this.sink == sink
    {
      this.facts, this.sink := facts, sink;
    }

    method Item(name: string) returns (value: Option<Value>)
      modifies sink
      ensures value == if name in facts.variables then Some(facts.variables[name]) else None
      ensures value.None? ==> AnswerTo(facts, map[], VariableItem(name)).None? && sink.constraints == old(sink.constraints)
      ensures value.Some? ==> AnswerTo(facts, map[], VariableItem(name)) == Some(AValue(value))
      ensures value.Some? ==> sink.constraints == old(sink.constraints) + Recorded(facts, VariableItem(name))
    {
      value := Lookup(facts.variables, name);
      if value.Some? {
        sink.Append(ValueIs(Variables, [name], value));
      }
    }

    method Get(name: string) returns (value: Option<Value>)
      modifies sink
      ensures value == if name in facts.variables then Some(facts.variables[name]) else None
      ensures AnswerTo(facts, map[], VariableGet(name)) == Some(AValue(value))
      ensures sink.constraints == old(sink.constraints) + Recorded(facts, VariableGet(name))
    {
      value := Lookup(facts.variables, name);
      sink.Append(ValueIs(Variables, [name], value));
    }

    method Contains(name: string) returns (present: bool)
      modifies sink
      ensures present <==> name in facts.variables
      ensures AnswerTo(facts, map[], VariableHas(name)) == Some(ABool(present))
      ensures sink.constraints == old(sink.constraints) + Recorded(facts, VariableHas(name))
    {
      present := name in facts.variables;
      sink.Append(Exists(Variables, [name], present));
    }

    method Keys() returns (keys: set<string>)
      modifies sink
      ensures forall name :: name in keys <==> name in facts.variables
      ensures AnswerTo(facts, map[], VariableKeys) == Some(AKeys(keys))
      ensures sink.constraints == old(sink.constraints) + Recorded(facts, VariableKeys)
    {
      keys := facts.variables.Keys;
      sink.Append(KeysAre(Variables, [], keys));
    }
  }

  /** `FieldArgs`: hands out coerced arguments and keeps book of what was observed. */
  class FieldArgs {
    const facts: Request
    const args: Args
    var literalReads: set<string>
    var placeholdered: set<string>
    var membership: set<string>
    var equality: seq<Check>

    function Bookkeeping(): Book
      reads this
    {
      Book(literalReads, placeholdered, membership, equality)
    }

    constructor (facts: Request, args: Args)
      ensures this.facts == facts && this.args == args && Bookkeeping() == EMPTY_BOOK
    {
      this.facts, this.args := facts, args;
      literalReads, placeholdered, membership, equality := {}, {}, {}, [];
    }

    method NoteLiteralRead(name: string)
      modifies this
      ensures Bookkeeping() == old(Bookkeeping()).(literalReads := old(literalReads) + Observe(args, name))
    {
      if IsDirect(args, name) || IsNested(args, name) {
        literalReads := literalReads + {name};
      }
    }

    method Get(name: string) returns (value: Option<Value>)
      modifies this
      ensures HasArg(facts, args, name, value)
      ensures AnswerTo(facts, args, ArgGet(name)) == Some(AValue(value))
      ensures Bookkeeping() == Noted(facts, args, old(Bookkeeping()), ArgGet(name))
    {
      NoteLiteralRead(name);
      value := Arg(facts, args, name);
      ArgIsIts(facts, args, name);
    }

    method Item(name: string) returns (value: Option<Value>)
      modifies this
      ensures HasArg(facts, args, name, value)
      ensures AnswerTo(facts, args, ArgItem(name)) == if value.Some? then Some(AValue(value)) else None
      ensures Bookkeeping() == Noted(facts, args, old(Bookkeeping()), ArgItem(name))
    {
      NoteLiteralRead(name);
      value := Arg(facts, args, name);
      ArgIsIts(facts, args, name);
    }

    method Raw() returns (entries: map<string, Value>)
      modifies this
      ensures forall name :: HasArg(facts, args, name, Lookup(entries, name))
      ensures AnswerTo(facts, args, ArgRaw) == Some(ADict(entries))
      ensures Bookkeeping() == Noted(facts, args, old(Bookkeeping()), ArgRaw)
    {
      literalReads := literalReads + FromVariables(args);
      entries := RawArgs(facts, args);
      forall name ensures HasArg(facts, args, name, Lookup(entries, name)) { ArgIsIts(facts, args, name); }
    }

    method Contains(name: string) returns (present: bool)
      modifies this
      ensures exists value :: HasArg(facts, args, name, value) && (present <==> value.Some?)
      ensures AnswerTo(facts, args, ArgHas(name)) == Some(ABool(present))
      ensures Bookkeeping() == Noted(facts, args, old(Bookkeeping()), ArgHas(name))
    {
      if IsDirect(args, name) {
        membership := membership + {name};
      }
      present := Arg(facts, args, name).Some?;
      ArgIsIts(facts, args, name);
    }

    method EvalIs(name: string, expected: Value) returns (passed: bool)
      modifies this
      ensures exists value :: HasArg(facts, args, name, value) && Compares(if value.Some? then value.value else VNull, expected, passed)
      ensures AnswerTo(facts, args, ArgIs(name, expected)) == Some(ABool(passed))
      ensures Bookkeeping() == Noted(facts, args, old(Bookkeeping()), ArgIs(name, expected))
    {
      passed := ValuesEqual(Some(OrNull(Arg(facts, args, name))), Some(expected));
      ArgIsIts(facts, args, name);
      EqualityCompares(OrNull(Arg(facts, args, name)), expected);
      if IsDirect(args, name) {
        equality := equality + [Check(name, expected, passed)];
      } else if IsNested(args, name) {
        literalReads := literalReads + {name};
      }
    }

    method Source(name: string) returns (tag: Option<string>)
      modifies this
      ensures tag == if name in args && args[name].Nested? then None else Some("var:" + if name in args && args[name].Direct? then args[name].variable else name)
      ensures AnswerTo(facts, args, ArgSourceTag(name)) == if tag.Some? then Some(ATag(tag.value)) else None
      ensures Bookkeeping() == Noted(facts, args, old(Bookkeeping()), ArgSourceTag(name))
    {
      if IsNested(args, name) {
        return None;
      }
      if IsDirect(args, name) {
        placeholdered := placeholdered + {name};
        return Some("var:" + args[name].variable);
      }
      return Some("var:" + name);
    }
  }
}
