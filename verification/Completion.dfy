/** Value completion: what completing one value alone yields. */
module Completion {
  import opened Wrappers

  // ----- raw values, completers and completed data -----

  /** A raw resolver value: null (None or Undefined), an exception, a scalar, an iterable, or an object. */
  datatype Raw = Null | Raised(message: string) | Scalar(text: string) | Items(items: seq<Raw>) | Row(id: int)

  datatype Key = Name(name: string) | Index(index: nat)

  type Path = seq<Key>

  datatype Reason = Failed(message: string) | NotSerializable | NullForNonNull | NotIterable | WrongType | BadRuntimeType

  /** A located error. */
  datatype Error = Error(path: Path, reason: Reason)

  datatype Data = DNull | DLeaf(text: string) | DList(items: seq<Data>) | DObject(entries: seq<Entry>)

  datatype Entry = Entry(name: string, data: Data)

  /** What completing a value yields: data, or an error on its way to the nearest boundary that catches it. */
  datatype Completed = Value(data: Data) | Bubble(error: Error)

  datatype Completer =
    | Leaf(leafType: string)
    | NonNull(inner: Completer)
    | List(item: Completer)
    | Object(objectType: string, fields: seq<Field>)
    | Abstract(abstractType: string, cases: seq<Case>)

  /** A field: its response name, the step whose column it reads and its completer. */
  datatype Field = Field(name: string, step: nat, completer: Completer)

  /** One concrete type of an abstract one and the plan of its fields. */
  datatype Case = Case(typeName: string, fields: seq<Field>)

  datatype Runtime = Resolved(typeName: string) | ResolveFailed(message: string)

  /** What the schema and the step columns supply: a field's raw value on an object, serialization, type guards. */
  datatype World = World(fetch: (nat, Raw) -> Raw, serialize: (string, Raw) -> Option<string>,
                         isTypeOf: (string, Raw) -> bool, resolveType: (string, Raw) -> Runtime)

  /** A value waiting to be completed, with its place in the response. */
  datatype Slot = Slot(value: Raw, path: Path)

  /** The outcome of completing one value: its result and the errors recorded on the way. */
  datatype Done = Done(result: Completed, errors: multiset<Error>)

  // ----- one value alone -----

  function CompleteSingleLeaf(w: World, leafType: string, s: Slot): Completed
  {
    match s.value
    case Raised(m) => Bubble(Error(s.path, Failed(m)))
    case Null => Value(DNull)
    case _ =>
      match w.serialize(leafType, s.value)
      case None => Bubble(Error(s.path, NotSerializable))
      case Some(text) => Value(DLeaf(text))
  }

  function EnforceNonNull(completed: Completed, path: Path): Completed
  {
    if completed == Value(DNull) then Bubble(Error(path, NullForNonNull)) else completed
  }

  function FindCase(cases: seq<Case>, typeName: string): (i: nat)
    ensures i <= |cases| && (i < |cases| ==> cases[i].typeName == typeName)
    ensures forall j :: 0 <= j < i ==> cases[j].typeName != typeName
    decreases |cases|
  {
    if cases == [] then 0 else if cases[0].typeName == typeName then 0 else
      var i := FindCase(cases[1..], typeName);
      assert forall j :: 1 <= j < i + 1 ==> cases[j] == cases[1..][j - 1];
      i + 1
  }

  function ItemSlot(s: Slot, k: nat): Slot
    requires s.value.Items? && k < |s.value.items|
  {
    Slot(s.value.items[k], s.path + [Index(k)])
  }

  function FieldSlot(w: World, f: Field, o: Slot): Slot
  {
    Slot(w.fetch(f.step, o.value), o.path + [Name(f.name)])
  }

  /** What an object-typed value comes to before its fields: the plan of its concrete type, or a settled result. */
  datatype Entered = Enter(fields: seq<Field>) | Settled(result: Completed)

  function EnterObject(w: World, c: Completer, s: Slot): (r: Entered)
    requires c.Object? || c.Abstract?
    ensures r.Enter? ==> (c decreases to r.fields)
  {
    if s.value.Null? then Settled(Value(DNull))
    else if s.value.Raised? then Settled(Bubble(Error(s.path, Failed(s.value.message))))
    else if c.Object? then
      if w.isTypeOf(c.objectType, s.value) then Enter(c.fields) else Settled(Bubble(Error(s.path, WrongType)))
    else
      match w.resolveType(c.abstractType, s.value)
      case ResolveFailed(m) => Settled(Bubble(Error(s.path, Failed(m))))
      case Resolved(name) =>
        var i := FindCase(c.cases, name);
        if i < |c.cases| then Enter(c.cases[i].fields) else Settled(Bubble(Error(s.path, BadRuntimeType)))
  }

  /** How far the fields of one object have got: the error that nulled it, or the entries written so far. */
  datatype FieldState = FieldState(bubble: Option<Error>, entries: seq<Entry>, errors: multiset<Error>)

  /** Completing one value alone. */
  ghost function One(w: World, c: Completer, s: Slot): Done
    decreases c, 0
  {
    match c
    case Leaf(t) => Done(CompleteSingleLeaf(w, t, s), multiset{})
    case NonNull(inner) =>
      var d := One(w, inner, s);
      Done(EnforceNonNull(d.result, s.path), d.errors)
    case List(item) =>
      if s.value.Items? then
        var st := ItemsDone(w, item, s, |s.value.items|);
        Done(if st.bubble.Some? then Bubble(st.bubble.value) else Value(DList(st.items)), st.errors)
      else Done(NotAList(s), multiset{})
    case _ =>
      match EnterObject(w, c, s)
      case Settled(result) => Done(result, multiset{})
      case Enter(fields) => Assemble(FieldsDone(w, fields, s, |fields|))
  }

  /** A list-typed value that has no items to complete. */
  function NotAList(s: Slot): Completed
    requires !s.value.Items?
  {
    match s.value
    case Raised(m) => Bubble(Error(s.path, Failed(m)))
    case Null => Value(DNull)
    case _ => Bubble(Error(s.path, NotIterable))
  }

  datatype ItemState = ItemState(bubble: Option<Error>, items: seq<Data>, errors: multiset<Error>)

  /** The list after its first `k` items: every item is completed even after one has nulled the list. */
  ghost function ItemsDone(w: World, item: Completer, s: Slot, k: nat): ItemState
    requires s.value.Items? && k <= |s.value.items|
    decreases item, 1, k
  {
    if k == 0 then ItemState(None, [], multiset{})
    else
      var st := ItemsDone(w, item, s, k - 1);
      var d := One(w, item, ItemSlot(s, k - 1));
      NextItem(st.(errors := st.errors + d.errors), item.NonNull?, d.result)
  }

  /** One completed item: caught when the item type is nullable, the first one left nulling the list otherwise. */
  function NextItem(st: ItemState, itemIsNonNull: bool, item: Completed): ItemState
  {
    if st.bubble.Some? then st
    else
      match item
      case Value(data) => st.(items := st.items + [data])
      case Bubble(e) =>
        if itemIsNonNull then st.(bubble := Some(e))
        else st.(items := st.items + [DNull], errors := st.errors + multiset{e})
  }

  /** The object after its first `k` fields. */
  ghost function FieldsDone(w: World, fields: seq<Field>, o: Slot, k: nat): FieldState
    requires k <= |fields|
    decreases fields, 0, k
  {
    if k == 0 then FieldState(None, [], multiset{})
    else
      var st := FieldsDone(w, fields, o, k - 1);
      if st.bubble.Some? then st
      else
        var f := fields[k - 1];
        var d := One(w, f.completer, FieldSlot(w, f, o));
        NextField(st.(errors := st.errors + d.errors), f, d.result)
  }

  /** One completed field: caught when the field is nullable, nulling the object otherwise. */
  function NextField(st: FieldState, f: Field, completed: Completed): FieldState
  {
    match completed
    case Value(data) => st.(entries := st.entries + [Entry(f.name, data)])
    case Bubble(e) =>
      if f.completer.NonNull? then st.(bubble := Some(e))
      else st.(entries := st.entries + [Entry(f.name, DNull)], errors := st.errors + multiset{e})
  }

  function Assemble(st: FieldState): Done
  {
    Done(if st.bubble.Some? then Bubble(st.bubble.value) else Value(DObject(st.entries)), st.errors)
  }
}
