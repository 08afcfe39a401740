/** Request inputs, the constraints a plan records about them, and their replay on a hit. */
module Constraints {
  import opened Wrappers

  /** A Python value: the scalars keep their type, containers hold further values. */
  datatype Value =
    | VNull
    | VBool(b: bool)
    | VInt(n: int)
    | VFloat(x: real)
    | VStr(s: string)
    | VList(items: seq<Value>)
    | VDict(entries: map<string, Value>)

  predicate IsNumber(v: Value)
  {
    v.VBool? || v.VInt? || v.VFloat?
  }

  function AsReal(v: Value): real
    requires IsNumber(v)
  {
    match v
    case VBool(b) => if b then 1.0 else 0.0
    case VInt(n) => n as real
    case VFloat(x) => x
  }

  /** Python's `==`: booleans, integers and floats compare as numbers, containers element by element. */
  predicate PyEq(a: Value, b: Value)
    decreases a
  {
    if IsNumber(a) && IsNumber(b) then AsReal(a) == AsReal(b)
    else if a.VList? && b.VList? then
      |a.items| == |b.items| && forall i :: 0 <= i < |a.items| ==> PyEq(a.items[i], b.items[i])
    else if a.VDict? && b.VDict? then
      a.entries.Keys == b.entries.Keys && forall k :: k in a.entries ==> PyEq(a.entries[k], b.entries[k])
    else a == b
  }

  /** `type(a) is type(b)`. */
  predicate SameType(a: Value, b: Value)
  {
    match a
    case VNull => b.VNull?
    case VBool(_) => b.VBool?
    case VInt(_) => b.VInt?
    case VFloat(_) => b.VFloat?
    case VStr(_) => b.VStr?
    case VList(_) => b.VList?
    case VDict(_) => b.VDict?
  }

  /** `values_equal`, with None for the ABSENT sentinel. */
  predicate ValuesEqual(a: Option<Value>, b: Option<Value>)
  {
    if a.None? || b.None? then a == b else SameType(a.value, b.value) && PyEq(a.value, b.value)
  }

  /** A value some other value of another type is `==` to, or a container of one. */
  ghost predicate HasAlias(v: Value)
  {
    match v
    case VBool(_) => true
    case VInt(_) => true
    case VFloat(x) => x == x.Floor as real
    case VList(items) => exists i :: 0 <= i < |items| && HasAlias(items[i])
    case VDict(entries) => exists k :: k in entries && HasAlias(entries[k])
    case _ => false
  }

  /** The top-level type is pinned, so only a container can let an alias through. */
  ghost predicate Pinned(v: Value)
  {
    v.VList? || v.VDict? ==> !HasAlias(v)
  }

  lemma {:induction false} EqReflexive(v: Value)
    ensures PyEq(v, v) && SameType(v, v)
  {
    match v
    case VList(items) => forall i | 0 <= i < |items| { EqReflexive(items[i]); }
    case VDict(entries) => forall k | k in entries { EqReflexive(entries[k]); }
    case _ =>
  }

  lemma {:induction false} UnaliasedIsPinned(v: Value, w: Value)
    requires !HasAlias(v) && PyEq(w, v)
    ensures w == v
  {
    match v
    case VList(items) =>
      forall i | 0 <= i < |items| ensures w.items[i] == items[i] { UnaliasedIsPinned(items[i], w.items[i]); }
    case VDict(entries) =>
      forall k | k in entries ensures w.entries[k] == entries[k] { UnaliasedIsPinned(entries[k], w.entries[k]); }
      assert w.entries == entries;
    case _ =>
  }

  /** Another value `==` to `v`. */
  ghost function Alias(v: Value): Value
    requires HasAlias(v)
  {
    match v
    case VBool(b) => VInt(if b then 1 else 0)
    case VInt(n) => VFloat(n as real)
    case VFloat(x) => VInt(x.Floor)
    case VList(items) =>
      var i :| 0 <= i < |items| && HasAlias(items[i]);
      VList(items[i := Alias(items[i])])
    case VDict(entries) =>
      var k :| k in entries && HasAlias(entries[k]);
      VDict(entries[k := Alias(entries[k])])
  }

  lemma {:induction false} AliasIsEqual(v: Value)
    requires HasAlias(v)
    ensures PyEq(Alias(v), v) && Alias(v) != v
    ensures v.VList? || v.VDict? ==> SameType(Alias(v), v)
  {
    match v
    case VList(items) =>
      var a := Alias(v);
      var i :| 0 <= i < |items| && HasAlias(items[i]) && a == VList(items[i := Alias(items[i])]);
      AliasIsEqual(items[i]);
      forall j | 0 <= j < |items| ensures PyEq(a.items[j], items[j]) { EqReflexive(items[j]); }
      assert a.items[i] != items[i];
    case VDict(entries) =>
      var a := Alias(v);
      var k :| k in entries && HasAlias(entries[k]) && a == VDict(entries[k := Alias(entries[k])]);
      AliasIsEqual(entries[k]);
      forall j | j in entries ensures PyEq(a.entries[j], entries[j]) { EqReflexive(entries[j]); }
      assert a.entries[k] != entries[k];
    case _ =>
  }

  /** A recorded value pins the read exactly when it is no container with a boolean, integer or integral float inside. */
  lemma PinsExactly(v: Value)
    ensures (forall w :: ValuesEqual(Some(w), Some(v)) ==> w == v) <==> Pinned(v)
  {
    if Pinned(v) {
      forall w | ValuesEqual(Some(w), Some(v))
        ensures w == v
      {
        if v.VList? || v.VDict? {
          UnaliasedIsPinned(v, w);
        }
      }
    } else {
      AliasIsEqual(v);
      assert ValuesEqual(Some(Alias(v)), Some(v));
    }
  }

  // ----- requests and constraints -----

  datatype Scope = Variables | Context

  /** The coerced variable values and the context a request carries. */
  datatype Request = Request(variables: map<string, Value>, context: map<string, Value>)

  function ScopeValue(facts: Request, scope: Scope): Value
  {
    match scope
    case Variables => VDict(facts.variables)
    case Context => VDict(facts.context)
  }

  /** `value_at`: a missing key, or a step into something that is no mapping, ends at ABSENT. */
  function ValueAt(obj: Value, path: seq<string>): Option<Value>
    decreases |path|
  {
    if path == [] then Some(obj)
    else if obj.VDict? && path[0] in obj.entries then ValueAt(obj.entries[path[0]], path[1..])
    else None
  }

  datatype Constraint =
    | ValueIs(scope: Scope, path: seq<string>, value: Option<Value>)
    | Equality(scope: Scope, path: seq<string>, expected: Value, passed: bool)
    | Exists(scope: Scope, path: seq<string>, present: bool)
    | KeysAre(scope: Scope, path: seq<string>, keys: set<string>)

  predicate Matches(c: Constraint, facts: Request)
  {
    var v := ValueAt(ScopeValue(facts, c.scope), c.path);
    match c
    case ValueIs(_, _, value) => ValuesEqual(v, value)
    case Equality(_, _, expected, passed) => ValuesEqual(v, Some(expected)) == passed
    case Exists(_, _, present) => v.Some? == present
    case KeysAre(_, _, keys) => v.Some? && v.value.VDict? && v.value.entries.Keys == keys
  }

  /** `constraints_match`. */
  predicate ConstraintsMatch(cs: seq<Constraint>, facts: Request)
  {
    forall i :: 0 <= i < |cs| ==> Matches(cs[i], facts)
  }

  lemma MatchParts(a: seq<Constraint>, b: seq<Constraint>, facts: Request)
    ensures ConstraintsMatch(a + b, facts) <==> ConstraintsMatch(a, facts) && ConstraintsMatch(b, facts)
  {
    if ConstraintsMatch(a + b, facts) {
      forall i | 0 <= i < |a| ensures Matches(a[i], facts) { assert (a + b)[i] == a[i]; }
      forall i | 0 <= i < |b| ensures Matches(b[i], facts) { assert (a + b)[|a| + i] == b[i]; }
    }
  }

  function Lookup(m: map<string, Value>, key: string): Option<Value>
  {
    if key in m then Some(m[key]) else None
  }

  /** One key further: into the entry of that name where there is a mapping with one, and to ABSENT everywhere else. */
  lemma {:induction false} OneKeyFurther(obj: Value, path: seq<string>, key: string)
    ensures ValueAt(obj, path + [key]) ==
              match ValueAt(obj, path)
              case Some(VDict(entries)) => Lookup(entries, key)
              case _ => None
    decreases |path|
  {
    if path == [] {
      assert ([] + [key])[1..] == [];
    } else {
      assert (path + [key])[1..] == path[1..] + [key];
      if obj.VDict? && path[0] in obj.entries { OneKeyFurther(obj.entries[path[0]], path[1..], key); }
    }
  }

  /** A one-key path reads the entry of that name. */
  lemma OneKey(facts: Request, scope: Scope, key: string)
    ensures ValueAt(ScopeValue(facts, scope), [key]) == Lookup(if scope == Variables then facts.variables else facts.context, key)
  {
    assert [key][1..] == [];
  }
}
