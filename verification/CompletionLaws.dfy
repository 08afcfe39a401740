/** Completion against the recursion of the GraphQL specification, and what nulls and errors have to do with each other. */
module CompletionLaws {
  import opened Wrappers
  import opened Completion

  // ----- sections 6.4.3 and 6.4.4: the value completed in place, an error stops what it nulls -----

  /** Handling a field error: a nullable position takes null and keeps the error, a non-null one passes it on. */
  function Catch(d: Done, nonNull: bool): Done
  {
    match d.result
    case Bubble(e) => if nonNull then d else Done(Value(DNull), d.errors + multiset{e})
    case Value(_) => d
  }

  ghost function Spec(w: World, c: Completer, s: Slot): Done
    decreases c, 0
  {
    match c
    case Leaf(t) => Done(CompleteSingleLeaf(w, t, s), multiset{})
    case NonNull(inner) =>
      var d := Spec(w, inner, s);
      if d.result == Value(DNull) then Done(Bubble(Error(s.path, NullForNonNull)), d.errors) else d
    case List(item) => if s.value.Items? then SpecItems(w, item, s, 0) else Done(NotAList(s), multiset{})
    case _ =>
      match EnterObject(w, c, s)
      case Settled(result) => Done(result, multiset{})
      case Enter(fields) => SpecFields(w, fields, s, 0)
  }

  function ThenItems(d: Done, rest: Done): (r: Done)
    requires d.result.Value? && (rest.result.Value? ==> rest.result.data.DList?)
    ensures r.result.Value? ==> r.result.data.DList?
  {
    Done(if rest.result.Bubble? then rest.result else Value(DList([d.result.data] + rest.result.data.items)), d.errors + rest.errors)
  }

  function ThenFields(name: string, d: Done, rest: Done): (r: Done)
    requires d.result.Value? && (rest.result.Value? ==> rest.result.data.DObject?)
    ensures r.result.Value? ==> r.result.data.DObject?
  {
    Done(if rest.result.Bubble? then rest.result else Value(DObject([Entry(name, d.result.data)] + rest.result.data.entries)), d.errors + rest.errors)
  }

  /** The items from `k` on; those behind an item that nulls the list are never looked at. */
  ghost function SpecItems(w: World, item: Completer, s: Slot, k: nat): (d: Done)
    requires s.value.Items? && k <= |s.value.items|
    ensures d.result.Value? ==> d.result.data.DList?
    decreases item, 1, |s.value.items| - k
  {
    if k == |s.value.items| then Done(Value(DList([])), multiset{})
    else
      var d := Catch(Spec(w, item, ItemSlot(s, k)), item.NonNull?);
      if d.result.Bubble? then d
      else
        ThenItems(d, SpecItems(w, item, s, k + 1))
  }

  /** The fields from `k` on, in selection order. */
  ghost function SpecFields(w: World, fields: seq<Field>, o: Slot, k: nat): (d: Done)
    requires k <= |fields|
    ensures d.result.Value? ==> d.result.data.DObject?
    decreases fields, 0, |fields| - k
  {
    if k == |fields| then Done(Value(DObject([])), multiset{})
    else
      var f := fields[k];
      var d := Catch(Spec(w, f.completer, FieldSlot(w, f, o)), f.completer.NonNull?);
      if d.result.Bubble? then d
      else
        ThenFields(f.name, d, SpecFields(w, fields, o, k + 1))
  }

  /** The same data and the same error on its way up; of the recorded errors, at least the specification's. */
  ghost predicate Refines(d: Done, spec: Done)
  {
    d.result == spec.result && spec.errors <= d.errors
  }

  lemma {:induction false} OneRefinesSpec(w: World, c: Completer, s: Slot)
    ensures Refines(One(w, c, s), Spec(w, c, s))
    decreases c, 0
  {
    match c
    case Leaf(t) =>
    case NonNull(inner) => OneRefinesSpec(w, inner, s);
    case List(item) =>
      if s.value.Items? {
        ItemsRefineSpec(w, item, s, 0, ItemsDone(w, item, s, 0), ItemsDone(w, item, s, |s.value.items|), SpecItems(w, item, s, 0));
        ItemsRefined(ItemsDone(w, item, s, 0), ItemsDone(w, item, s, |s.value.items|), SpecItems(w, item, s, 0));
      }
    case _ =>
      match EnterObject(w, c, s)
      case Settled(_) =>
      case Enter(fields) =>
        FieldsRefineSpec(w, fields, s, 0, FieldsDone(w, fields, s, |fields|));
        FieldsRefined(FieldsDone(w, fields, s, 0), FieldsDone(w, fields, s, |fields|), SpecFields(w, fields, s, 0));
  }

  /** `end` is where the specification's `rest` leads from `st`. */
  ghost predicate ItemsLead(st: ItemState, end: ItemState, rest: Done)
  {
    && st.errors + rest.errors <= end.errors
    && match rest.result
       case Bubble(e) => end.bubble == Some(e)
       case Value(data) => end.bubble == None && data.DList? && end.items == st.items + data.items
  }

  ghost predicate FieldsLead(st: FieldState, end: FieldState, rest: Done)
  {
    && st.errors + rest.errors <= end.errors
    && match rest.result
       case Bubble(e) => end.bubble == Some(e)
       case Value(data) => end.bubble == None && data.DObject? && end.entries == st.entries + data.entries
  }

  lemma ItemsRefined(st: ItemState, end: ItemState, rest: Done)
    requires ItemsLead(st, end, rest) && st == ItemState(None, [], multiset{})
    ensures Refines(Done(if end.bubble.Some? then Bubble(end.bubble.value) else Value(DList(end.items)), end.errors), rest)
  {
  }

  lemma FieldsRefined(st: FieldState, end: FieldState, rest: Done)
    requires FieldsLead(st, end, rest) && st == FieldState(None, [], multiset{})
    ensures Refines(Assemble(end), rest)
  {
  }

  ghost predicate ItemsStay(st: ItemState, end: ItemState)
  {
    st.bubble == end.bubble && st.errors <= end.errors
  }

  /** Once an item has nulled the list the result stays; errors only grow. */
  lemma {:induction false} ItemsBubbled(w: World, item: Completer, s: Slot, k: nat, n: nat)
    requires s.value.Items? && k <= n <= |s.value.items| && ItemsDone(w, item, s, k).bubble.Some?
    ensures ItemsStay(ItemsDone(w, item, s, k), ItemsDone(w, item, s, n))
    decreases n
  {
    if k == n {
    } else {
      ItemsBubbled(w, item, s, k, n - 1);
      ItemStays(w, item, s, n - 1, n);
    }
  }

  lemma ItemStays(w: World, item: Completer, s: Slot, k: nat, next: nat)
    requires s.value.Items? && k < next == k + 1 <= |s.value.items| && ItemsDone(w, item, s, k).bubble.Some?
    ensures ItemsStay(ItemsDone(w, item, s, k), ItemsDone(w, item, s, next))
  {
  }

  /** The object stands like this after `k` fields.  One part, so that the induction below carries it without looking into it. */
  datatype Part = Whole

  ghost predicate StandsIn(part: Part, w: World, fields: seq<Field>, o: Slot, k: nat, st: FieldState)
  {
    k <= |fields| && FieldsDone(w, fields, o, k) == st
  }

  ghost predicate StandsAt(w: World, fields: seq<Field>, o: Slot, k: nat, st: FieldState)
  {
    forall part: Part :: StandsIn(part, w, fields, o, k, st)
  }

  lemma {:induction false} StandsOn(w: World, fields: seq<Field>, o: Slot, k: nat, n: nat, st: FieldState)
    requires k <= n <= |fields| && StandsAt(w, fields, o, k, st) && st.bubble.Some?
    ensures StandsAt(w, fields, o, n, st)
    decreases n - k
  {
    if k == n {
    } else {
      FieldStays(w, fields, o, k, k + 1, st);
      StandsOn(w, fields, o, k + 1, n, st);
    }
  }

  lemma FieldStays(w: World, fields: seq<Field>, o: Slot, k: nat, next: nat, st: FieldState)
    requires k < next == k + 1 <= |fields| && StandsAt(w, fields, o, k, st) && st.bubble.Some?
    ensures StandsAt(w, fields, o, next, st)
  {
    assert StandsIn(Whole, w, fields, o, k, st);
    forall part: Part ensures StandsIn(part, w, fields, o, next, st) {}
  }

  lemma FieldsBubbled(w: World, fields: seq<Field>, o: Slot, k: nat, n: nat, st: FieldState)
    requires k <= n <= |fields| && FieldsDone(w, fields, o, k) == st && st.bubble.Some?
    ensures FieldsDone(w, fields, o, n) == st
  {
    StandsOn(w, fields, o, k, n, st);
    assert StandsIn(Whole, w, fields, o, n, st);
  }

  /** An item that nulls the list. */
  lemma ItemStops(st: ItemState, nonNull: bool, d: Done, spec: Done, end: ItemState)
    requires st.bubble.None? && Refines(d, spec) && Catch(spec, nonNull).result.Bubble?
    requires ItemsStay(NextItem(st.(errors := st.errors + d.errors), nonNull, d.result), end)
    ensures ItemsLead(st, end, Catch(spec, nonNull))
  {
  }

  /** An item that does not, and then the rest. */
  lemma ItemGoesOn(st: ItemState, nonNull: bool, d: Done, spec: Done, end: ItemState, rest: Done)
    requires st.bubble.None? && Refines(d, spec) && Catch(spec, nonNull).result.Value?
    requires rest.result.Value? ==> rest.result.data.DList?
    requires ItemsLead(NextItem(st.(errors := st.errors + d.errors), nonNull, d.result), end, rest)
    ensures ItemsLead(st, end, ThenItems(Catch(spec, nonNull), rest))
  {
    var caught := Catch(spec, nonNull);
    var next := NextItem(st.(errors := st.errors + d.errors), nonNull, d.result);
    assert next.items == st.items + [caught.result.data];
    assert st.errors + caught.errors <= next.errors;
  }

  lemma {:induction false} ItemsRefineSpec(w: World, item: Completer, s: Slot, k: nat, st: ItemState, end: ItemState, rest: Done)
    requires s.value.Items? && k <= |s.value.items| && st == ItemsDone(w, item, s, k) && st.bubble.None?
    requires end == ItemsDone(w, item, s, |s.value.items|) && rest == SpecItems(w, item, s, k)
    ensures ItemsLead(st, end, rest)
    decreases item, 2, |s.value.items| - k, 1
  {
    if k == |s.value.items| {
      NoItemsLeft(w, item, s, k, st, end, rest);
    } else if ItemsDone(w, item, s, k + 1).bubble.Some? {
      ItemEndsList(w, item, s, k, st, end, rest);
    } else {
      ItemsRefineRest(w, item, s, k, st, ItemsDone(w, item, s, k + 1), end, rest, SpecItems(w, item, s, k + 1));
    }
  }

  lemma {:induction false} ItemsRefineRest(w: World, item: Completer, s: Slot, k: nat, st: ItemState, next: ItemState, end: ItemState, rest: Done, onwards: Done)
    requires s.value.Items? && k < |s.value.items| && st == ItemsDone(w, item, s, k) && st.bubble.None? && rest == SpecItems(w, item, s, k)
    requires next == ItemsDone(w, item, s, k + 1) && next.bubble.None? && onwards == SpecItems(w, item, s, k + 1)
    requires end == ItemsDone(w, item, s, |s.value.items|)
    ensures ItemsLead(st, end, rest)
    decreases item, 2, |s.value.items| - k, 0
  {
    ItemsRefineSpec(w, item, s, k + 1, next, end, onwards);
    ItemGoesBefore(w, item, s, k, st, next, end, rest, onwards);
  }

  lemma NoItemsLeft(w: World, item: Completer, s: Slot, k: nat, st: ItemState, end: ItemState, rest: Done)
    requires s.value.Items? && k == |s.value.items| && st == end == ItemsDone(w, item, s, k) && st.bubble.None? && rest == SpecItems(w, item, s, k)
    ensures ItemsLead(st, end, rest)
  {
    assert rest == Done(Value(DList([])), multiset{});
  }

  /** The item at `k` nulls the list. */
  lemma {:induction false} ItemEndsList(w: World, item: Completer, s: Slot, k: nat, st: ItemState, end: ItemState, rest: Done)
    requires s.value.Items? && k < |s.value.items| && st == ItemsDone(w, item, s, k) && st.bubble.None?
    requires end == ItemsDone(w, item, s, |s.value.items|) && ItemsDone(w, item, s, k + 1).bubble.Some? && rest == SpecItems(w, item, s, k)
    ensures ItemsLead(st, end, rest)
    decreases item, 1
  {
    ItemsBubbled(w, item, s, k + 1, |s.value.items|);
    OneRefinesSpec(w, item, ItemSlot(s, k));
    var d, spec := One(w, item, ItemSlot(s, k)), Spec(w, item, ItemSlot(s, k));
    assert ItemsDone(w, item, s, k + 1) == NextItem(st.(errors := st.errors + d.errors), item.NonNull?, d.result);
    ItemStops(st, item.NonNull?, d, spec, end);
  }

  /** The item at `k` does not, and the rest follows it. */
  lemma {:induction false} ItemGoesBefore(w: World, item: Completer, s: Slot, k: nat, st: ItemState, next: ItemState, end: ItemState, rest: Done, onwards: Done)
    requires s.value.Items? && k < |s.value.items| && st == ItemsDone(w, item, s, k) && st.bubble.None? && rest == SpecItems(w, item, s, k)
    requires next == ItemsDone(w, item, s, k + 1) && next.bubble.None? && onwards == SpecItems(w, item, s, k + 1) && ItemsLead(next, end, onwards)
    ensures ItemsLead(st, end, rest)
    decreases item, 1
  {
    OneRefinesSpec(w, item, ItemSlot(s, k));
    var d, spec := One(w, item, ItemSlot(s, k)), Spec(w, item, ItemSlot(s, k));
    assert next == NextItem(st.(errors := st.errors + d.errors), item.NonNull?, d.result);
    ItemGoesOn(st, item.NonNull?, d, spec, end, onwards);
  }

  lemma FieldStops(st: FieldState, f: Field, d: Done, spec: Done, end: FieldState)
    requires st.bubble.None? && Refines(d, spec) && Catch(spec, f.completer.NonNull?).result.Bubble?
    requires end == NextField(st.(errors := st.errors + d.errors), f, d.result)
    ensures FieldsLead(st, end, Catch(spec, f.completer.NonNull?))
  {
  }

  lemma FieldGoesOn(st: FieldState, f: Field, d: Done, spec: Done, end: FieldState, rest: Done)
    requires st.bubble.None? && Refines(d, spec) && Catch(spec, f.completer.NonNull?).result.Value?
    requires rest.result.Value? ==> rest.result.data.DObject?
    requires FieldsLead(NextField(st.(errors := st.errors + d.errors), f, d.result), end, rest)
    ensures FieldsLead(st, end, ThenFields(f.name, Catch(spec, f.completer.NonNull?), rest))
  {
    var caught := Catch(spec, f.completer.NonNull?);
    var next := NextField(st.(errors := st.errors + d.errors), f, d.result);
    assert next.entries == st.entries + [Entry(f.name, caught.result.data)];
    assert st.errors + caught.errors <= next.errors;
  }

  lemma {:induction false} FieldsRefineSpec(w: World, fields: seq<Field>, o: Slot, k: nat, end: FieldState)
    requires k <= |fields| && FieldsDone(w, fields, o, k).bubble.None?
    requires end == FieldsDone(w, fields, o, |fields|)
    ensures FieldsLead(FieldsDone(w, fields, o, k), end, SpecFields(w, fields, o, k))
    decreases fields, 0, |fields| - k
  {
    if k == |fields| {
    } else {
      OneRefinesSpec(w, fields[k].completer, FieldSlot(w, fields[k], o));
      var next := FieldsDone(w, fields, o, k + 1);
      if next.bubble.Some? {
        FieldsBubbled(w, fields, o, k + 1, |fields|, next);
      } else {
        FieldsRefineSpec(w, fields, o, k + 1, end);
      }
      FieldStep(w, fields, o, k, next, end);
    }
  }

  lemma FieldStep(w: World, fields: seq<Field>, o: Slot, k: nat, next: FieldState, end: FieldState)
    requires k < |fields| && FieldsDone(w, fields, o, k).bubble.None?
    requires var f := fields[k]; Refines(One(w, f.completer, FieldSlot(w, f, o)), Spec(w, f.completer, FieldSlot(w, f, o)))
    requires next == FieldsDone(w, fields, o, k + 1)
    requires if next.bubble.Some? then end == next else FieldsLead(next, end, SpecFields(w, fields, o, k + 1))
    ensures FieldsLead(FieldsDone(w, fields, o, k), end, SpecFields(w, fields, o, k))
  {
    var f := fields[k];
    var st := FieldsDone(w, fields, o, k);
    var d, spec := One(w, f.completer, FieldSlot(w, f, o)), Spec(w, f.completer, FieldSlot(w, f, o));
    assert next == NextField(st.(errors := st.errors + d.errors), f, d.result);
    if Catch(spec, f.completer.NonNull?).result.Bubble? {
      FieldStops(st, f, d, spec, end);
    } else {
      FieldGoesOn(st, f, d, spec, end, SpecFields(w, fields, o, k + 1));
    }
  }

  // ----- nulls and errors -----

  /** Walking down from `data` along `rel` meets a null. */
  ghost predicate NullOn(data: Data, rel: Path)
    decreases |rel|
  {
    data.DNull? ||
    (rel != [] &&
     match rel[0]
     case Index(i) => data.DList? && i < |data.items| && NullOn(data.items[i], rel[1..])
     case Name(n) => data.DObject? && exists j :: 0 <= j < |data.entries| && data.entries[j].name == n && NullOn(data.entries[j].data, rel[1..]))
  }

  ghost predicate AllUnder(path: Path, errors: multiset<Error>)
  {
    forall e :: e in errors ==> path <= e.path
  }

  /** Each recorded error lies below `path`, and the way to it through `data` meets a null. */
  ghost predicate Passes(data: Data, path: Path, errors: multiset<Error>)
  {
    forall e :: e in errors ==> path <= e.path && NullOn(data, e.path[|path|..])
  }

  /** `i` is the first case that names the runtime type of the value. */
  ghost predicate NamesCase(w: World, typeName: string, cases: seq<Case>, value: Raw, i: int)
  {
    && 0 <= i < |cases| && w.resolveType(typeName, value) == Resolved(cases[i].typeName)
    && forall j :: 0 <= j < i ==> cases[j].typeName != cases[i].typeName
  }

  ghost predicate NamesNoCase(w: World, typeName: string, cases: seq<Case>, value: Raw)
  {
    w.resolveType(typeName, value).Resolved? && forall j :: 0 <= j < |cases| ==> w.resolveType(typeName, value) != Resolved(cases[j].typeName)
  }

  /** `e` is what goes wrong at this position or gets up to it uncaught: a raised value, a refused serialization, a null where
      none may be, a value that is no list, a failed type guard, a runtime type that cannot be resolved or that no case names
      -- or the first such error at a non-null item or field below. */
  ghost predicate Reaches(w: World, c: Completer, s: Slot, e: Error)
    decreases c, 0
  {
    if s.value.Raised? then e == Error(s.path, Failed(s.value.message))
    else if s.value.Null? then c.NonNull? && e == Error(s.path, NullForNonNull)
    else
      match c
      case Leaf(t) => w.serialize(t, s.value) == None && e == Error(s.path, NotSerializable)
      case NonNull(inner) => Reaches(w, inner, s, e)
      case List(item) =>
        if s.value.Items? then ItemsReach(w, item, s.value.items, s.path, |s.value.items|, e) else e == Error(s.path, NotIterable)
      case Object(t, fields) =>
        if w.isTypeOf(t, s.value) then FieldsReach(w, fields, s, |fields|, e) else e == Error(s.path, WrongType)
      case Abstract(t, cases) =>
        || (w.resolveType(t, s.value).ResolveFailed? && e == Error(s.path, Failed(w.resolveType(t, s.value).message)))
        || (NamesNoCase(w, t, cases, s.value) && e == Error(s.path, BadRuntimeType))
        || exists i :: NamesCase(w, t, cases, s.value, i) && FieldsReach(w, cases[i].fields, s, |cases[i].fields|, e)
  }

  /** No error gets up to this position. */
  ghost predicate Clear(w: World, c: Completer, s: Slot)
    decreases c, 1
  {
    forall e :: !Reaches(w, c, s, e)
  }

  ghost predicate ItemsReach(w: World, item: Completer, items: seq<Raw>, path: Path, n: nat, e: Error)
    requires n <= |items|
    decreases item, 3
  {
    exists k :: 0 <= k < n && ItemReaches(w, item, items, path, k, e)
  }

  /** Item `k` nulls the list, and none before it does. */
  ghost predicate ItemReaches(w: World, item: Completer, items: seq<Raw>, path: Path, k: nat, e: Error)
    requires k < |items|
    decreases item, 2
  {
    item.NonNull? && Reaches(w, item, Slot(items[k], path + [Index(k)]), e) && forall j :: 0 <= j < k ==> Clear(w, item, Slot(items[j], path + [Index(j)]))
  }

  ghost predicate FieldsReach(w: World, fields: seq<Field>, o: Slot, n: nat, e: Error)
    requires n <= |fields|
    decreases fields, 3
  {
    exists k :: 0 <= k < n && FieldReaches(w, fields, o, k, e)
  }

  /** Field `k` nulls the object, and none before it does. */
  ghost predicate FieldReaches(w: World, fields: seq<Field>, o: Slot, k: nat, e: Error)
    requires k < |fields|
    decreases fields, 2
  {
    && fields[k].completer.NonNull? && Reaches(w, fields[k].completer, Slot(w.fetch(fields[k].step, o.value), o.path + [Name(fields[k].name)]), e)
    && forall j :: 0 <= j < k ==> !FieldNulls(w, fields, o, j)
  }

  ghost predicate FieldNulls(w: World, fields: seq<Field>, o: Slot, k: nat)
    requires k < |fields|
    decreases fields, 1
  {
    fields[k].completer.NonNull? && !Clear(w, fields[k].completer, Slot(w.fetch(fields[k].step, o.value), o.path + [Name(fields[k].name)]))
  }

  /** `e` gets up to a nullable position below this one and is caught there.  Every item of a list is looked at; the fields of
      an object only up to the one that nulls it. */
  ghost predicate Kept(w: World, c: Completer, s: Slot, e: Error)
    decreases c, 0
  {
    match c
    case Leaf(_) => false
    case NonNull(inner) => Kept(w, inner, s, e)
    case List(item) => s.value.Items? && ItemsKeep(w, item, s.value.items, s.path, |s.value.items|, e)
    case Object(t, fields) => !s.value.Null? && !s.value.Raised? && w.isTypeOf(t, s.value) && FieldsKeep(w, fields, s, |fields|, e)
    case Abstract(t, cases) =>
      !s.value.Null? && !s.value.Raised? && exists i :: NamesCase(w, t, cases, s.value, i) && FieldsKeep(w, cases[i].fields, s, |cases[i].fields|, e)
  }

  ghost predicate KeptHere(w: World, c: Completer, s: Slot, e: Error)
    decreases c, 1
  {
    Kept(w, c, s, e) || (!c.NonNull? && Reaches(w, c, s, e))
  }

  ghost predicate ItemsKeep(w: World, item: Completer, items: seq<Raw>, path: Path, n: nat, e: Error)
    requires n <= |items|
    decreases item, 2
  {
    exists k :: 0 <= k < n && KeptHere(w, item, Slot(items[k], path + [Index(k)]), e)
  }

  ghost predicate FieldsKeep(w: World, fields: seq<Field>, o: Slot, n: nat, e: Error)
    requires n <= |fields|
    decreases fields, 3
  {
    exists k :: 0 <= k < n && FieldKeeps(w, fields, o, k, e)
  }

  ghost predicate FieldKeeps(w: World, fields: seq<Field>, o: Slot, k: nat, e: Error)
    requires k < |fields|
    decreases fields, 2
  {
    && KeptHere(w, fields[k].completer, Slot(w.fetch(fields[k].step, o.value), o.path + [Name(fields[k].name)]), e)
    && forall j :: 0 <= j < k ==> !FieldNulls(w, fields, o, j)
  }

  /** `data` is the answer: the serialized leaf, the items in order, the fields of the guarded or resolved type, each
      answered in turn; null for a null of the source. */
  ghost predicate Explained(w: World, c: Completer, s: Slot, data: Data)
    decreases c, 0
  {
    if c.NonNull? then !data.DNull? && Explained(w, c.inner, s, data)
    else if data.DNull? || s.value.Null? || s.value.Raised? then data.DNull? && s.value.Null?
    else
      match c
      case Leaf(t) => data.DLeaf? && w.serialize(t, s.value) == Some(data.text)
      case List(item) => data.DList? && s.value.Items? && |data.items| == |s.value.items| && ItemsExplained(w, item, s.value.items, s.path, data.items)
      case Object(t, fields) =>
        w.isTypeOf(t, s.value) && data.DObject? && |data.entries| == |fields| && EntriesExplained(w, fields, s, data.entries)
      case Abstract(t, cases) =>
        data.DObject? && exists i :: NamesCase(w, t, cases, s.value, i) && |data.entries| == |cases[i].fields| && EntriesExplained(w, cases[i].fields, s, data.entries)
  }

  ghost predicate ItemsExplained(w: World, item: Completer, items: seq<Raw>, path: Path, answers: seq<Data>)
    requires |answers| <= |items|
    decreases item, 3
  {
    forall i :: 0 <= i < |answers| ==> ExplainedHere(w, item, Slot(items[i], path + [Index(i)]), answers[i])
  }

  ghost predicate EntriesExplained(w: World, fields: seq<Field>, o: Slot, entries: seq<Entry>)
    requires |entries| <= |fields|
    decreases fields, 2
  {
    forall i :: 0 <= i < |entries| ==> EntryExplained(w, fields, o, i, entries[i])
  }

  ghost predicate EntryExplained(w: World, fields: seq<Field>, o: Slot, i: nat, entry: Entry)
    requires i < |fields|
    decreases fields, 1
  {
    && entry.name == fields[i].name
    && ExplainedHere(w, fields[i].completer, Slot(w.fetch(fields[i].step, o.value), o.path + [Name(fields[i].name)]), entry.data)
  }

  /** An error that gets up to a position puts a null there, and the position is a nullable one; where none does, the value is
      answered. */
  ghost predicate ExplainedHere(w: World, c: Completer, s: Slot, data: Data)
    decreases c, 2
  {
    if Clear(w, c, s) then Explained(w, c, s, data) else data.DNull? && !c.NonNull?
  }

  /** The error that leaves this position is the one that gets up to it. */
  ghost predicate Sends(w: World, c: Completer, s: Slot, result: Completed)
  {
    forall e :: result == Bubble(e) <==> Reaches(w, c, s, e)
  }

  ghost predicate Keeps(w: World, c: Completer, s: Slot, errors: multiset<Error>)
  {
    forall e :: e in errors <==> Kept(w, c, s, e)
  }

  /** What completing one value guarantees about its answer, its nulls and its errors. */
  ghost predicate Corresponds(w: World, c: Completer, s: Slot, d: Done)
  {
    && Sends(w, c, s, d.result) && Keeps(w, c, s, d.errors)
    && match d.result
       case Value(data) => Explained(w, c, s, data) && Passes(data, s.path, d.errors)
       case Bubble(e) => s.path <= e.path && AllUnder(s.path, d.errors)
  }

  ghost predicate ItemsSend(w: World, item: Completer, s: Slot, k: nat, bubble: Option<Error>)
    requires s.value.Items? && k <= |s.value.items|
  {
    && (forall e :: bubble == Some(e) <==> ItemsReach(w, item, s.value.items, s.path, k, e))
    && (bubble.None? && item.NonNull? ==> forall j :: 0 <= j < k ==> Clear(w, item, Slot(s.value.items[j], s.path + [Index(j)])))
  }

  ghost predicate ItemsHold(w: World, item: Completer, s: Slot, k: nat, errors: multiset<Error>)
    requires s.value.Items? && k <= |s.value.items|
  {
    forall e :: e in errors <==> ItemsKeep(w, item, s.value.items, s.path, k, e)
  }

  ghost predicate ItemsCorrespond(w: World, item: Completer, s: Slot, k: nat, st: ItemState)
    requires s.value.Items? && k <= |s.value.items|
  {
    && ItemsSend(w, item, s, k, st.bubble) && ItemsHold(w, item, s, k, st.errors)
    && match st.bubble
       case None => |st.items| == k && ItemsExplained(w, item, s.value.items, s.path, st.items) && Passes(DList(st.items), s.path, st.errors)
       case Some(e) => s.path <= e.path && AllUnder(s.path, st.errors)
  }

  ghost predicate FieldsSend(w: World, fields: seq<Field>, o: Slot, k: nat, bubble: Option<Error>)
    requires k <= |fields|
  {
    && (forall e :: bubble == Some(e) <==> FieldsReach(w, fields, o, k, e))
    && (bubble.None? ==> forall j :: 0 <= j < k ==> !FieldNulls(w, fields, o, j))
  }

  ghost predicate FieldsHold(w: World, fields: seq<Field>, o: Slot, k: nat, errors: multiset<Error>)
    requires k <= |fields|
  {
    forall e :: e in errors <==> FieldsKeep(w, fields, o, k, e)
  }

  ghost predicate FieldsCorrespond(w: World, fields: seq<Field>, o: Slot, k: nat, st: FieldState)
    requires k <= |fields|
  {
    && FieldsSend(w, fields, o, k, st.bubble) && FieldsHold(w, fields, o, k, st.errors)
    && match st.bubble
       case None => |st.entries| == k && EntriesExplained(w, fields, o, st.entries) && Passes(DObject(st.entries), o.path, st.errors)
       case Some(e) => o.path <= e.path && AllUnder(o.path, st.errors)
  }

  /** The answer is the serialized, guarded, resolved one, nothing at a non-null position is null, an error leaves or is
      recorded exactly where one gets up to, and every recorded error shows as a null. */
  lemma {:induction false} NullsAndErrorsCorrespond(w: World, c: Completer, s: Slot)
    ensures Corresponds(w, c, s, One(w, c, s))
    decreases c, 2
  {
    match c
    case Leaf(t) =>
    case NonNull(inner) =>
      NullsAndErrorsCorrespond(w, inner, s);
      NonNullCorresponds(w, inner, s, One(w, inner, s));
    case List(item) =>
      if s.value.Items? {
        ItemsDoneCorrespond(w, item, s, |s.value.items|);
        ListCorresponds(w, item, s, ItemsDone(w, item, s, |s.value.items|));
      } else {
        NoListCorresponds(w, item, s);
      }
    case Object(t, fields) =>
      if !s.value.Null? && !s.value.Raised? && w.isTypeOf(t, s.value) {
        FieldsDoneCorrespond(w, fields, s, |fields|);
        ObjectCorresponds(w, t, fields, s, FieldsDone(w, fields, s, |fields|));
      }
    case Abstract(t, cases) =>
      if !s.value.Null? && !s.value.Raised? && w.resolveType(t, s.value).Resolved? {
        AbstractCorresponds(w, t, cases, s, FindCase(cases, w.resolveType(t, s.value).typeName));
      }
  }

  lemma NonNullCorresponds(w: World, inner: Completer, s: Slot, d: Done)
    requires Corresponds(w, inner, s, d)
    ensures Corresponds(w, NonNull(inner), s, Done(EnforceNonNull(d.result, s.path), d.errors))
  {
    var r := EnforceNonNull(d.result, s.path);
    if d.result == Value(DNull) {
      assert s.value.Null? by { NullIsNull(w, inner, s); }
      assert r == Bubble(Error(s.path, NullForNonNull));
    } else if d.result.Bubble? {
      assert Reaches(w, inner, s, d.result.error);
    } else {
      NotNullIsNot(w, inner, s, d.result.data);
    }
    forall e ensures r == Bubble(e) <==> Reaches(w, NonNull(inner), s, e) { assert d.result == Bubble(e) <==> Reaches(w, inner, s, e); }
  }

  lemma {:induction false} NullIsNull(w: World, c: Completer, s: Slot)
    requires Explained(w, c, s, DNull)
    ensures s.value.Null?
  {
  }

  lemma {:induction false} NotNullIsNot(w: World, c: Completer, s: Slot, data: Data)
    requires Explained(w, c, s, data) && !data.DNull?
    ensures !s.value.Null? && !s.value.Raised?
    decreases c
  {
    if c.NonNull? { NotNullIsNot(w, c.inner, s, data); }
  }

  lemma ListCorresponds(w: World, item: Completer, s: Slot, st: ItemState)
    requires s.value.Items? && ItemsCorrespond(w, item, s, |s.value.items|, st)
    ensures Corresponds(w, List(item), s, Done(if st.bubble.Some? then Bubble(st.bubble.value) else Value(DList(st.items)), st.errors))
  {
    var r := if st.bubble.Some? then Bubble(st.bubble.value) else Value(DList(st.items));
    forall e ensures r == Bubble(e) <==> Reaches(w, List(item), s, e)
    {
      assert st.bubble == Some(e) <==> ItemsReach(w, item, s.value.items, s.path, |s.value.items|, e);
    }
  }

  lemma NoListCorresponds(w: World, item: Completer, s: Slot)
    requires !s.value.Items?
    ensures Corresponds(w, List(item), s, Done(NotAList(s), multiset{}))
  {
  }

  lemma ObjectCorresponds(w: World, t: string, fields: seq<Field>, s: Slot, st: FieldState)
    requires !s.value.Null? && !s.value.Raised? && w.isTypeOf(t, s.value) && FieldsCorrespond(w, fields, s, |fields|, st)
    ensures Corresponds(w, Object(t, fields), s, Assemble(st))
  {
    forall e ensures Assemble(st).result == Bubble(e) <==> Reaches(w, Object(t, fields), s, e)
    {
      assert st.bubble == Some(e) <==> FieldsReach(w, fields, s, |fields|, e);
    }
  }

  lemma {:induction false} AbstractCorresponds(w: World, t: string, cases: seq<Case>, s: Slot, i: nat)
    requires !s.value.Null? && !s.value.Raised? && w.resolveType(t, s.value).Resolved? && i == FindCase(cases, w.resolveType(t, s.value).typeName)
    ensures Corresponds(w, Abstract(t, cases), s, One(w, Abstract(t, cases), s))
    decreases cases, 0
  {
    if i < |cases| {
      FieldsDoneCorrespond(w, cases[i].fields, s, |cases[i].fields|);
      CaseCorresponds(w, t, cases, s, i, FieldsDone(w, cases[i].fields, s, |cases[i].fields|));
    } else {
      assert NamesNoCase(w, t, cases, s.value);
    }
  }

  lemma OneCaseNamed(w: World, t: string, cases: seq<Case>, value: Raw, i: int, j: int)
    requires NamesCase(w, t, cases, value, i) && NamesCase(w, t, cases, value, j)
    ensures i == j
  {
  }

  lemma CaseCorresponds(w: World, t: string, cases: seq<Case>, s: Slot, i: nat, st: FieldState)
    requires !s.value.Null? && !s.value.Raised? && NamesCase(w, t, cases, s.value, i)
    requires FieldsCorrespond(w, cases[i].fields, s, |cases[i].fields|, st)
    ensures Corresponds(w, Abstract(t, cases), s, Assemble(st))
  {
    var c, fields := Abstract(t, cases), cases[i].fields;
    forall e ensures Assemble(st).result == Bubble(e) <==> Reaches(w, c, s, e)
    {
      assert st.bubble == Some(e) <==> FieldsReach(w, fields, s, |fields|, e);
      CaseReaches(w, t, cases, s, i, e);
    }
    forall e ensures e in st.errors <==> Kept(w, c, s, e)
    {
      assert e in st.errors <==> FieldsKeep(w, fields, s, |fields|, e);
      CaseKeeps(w, t, cases, s, i, e);
    }
  }

  lemma CaseReaches(w: World, t: string, cases: seq<Case>, s: Slot, i: nat, e: Error)
    requires !s.value.Null? && !s.value.Raised? && NamesCase(w, t, cases, s.value, i)
    ensures Reaches(w, Abstract(t, cases), s, e) <==> FieldsReach(w, cases[i].fields, s, |cases[i].fields|, e)
  {
    forall j | NamesCase(w, t, cases, s.value, j) ensures j == i { OneCaseNamed(w, t, cases, s.value, i, j); }
  }

  lemma CaseKeeps(w: World, t: string, cases: seq<Case>, s: Slot, i: nat, e: Error)
    requires !s.value.Null? && !s.value.Raised? && NamesCase(w, t, cases, s.value, i)
    ensures Kept(w, Abstract(t, cases), s, e) <==> FieldsKeep(w, cases[i].fields, s, |cases[i].fields|, e)
  {
    forall j | NamesCase(w, t, cases, s.value, j) ensures j == i { OneCaseNamed(w, t, cases, s.value, i, j); }
  }

  // ----- items -----

  lemma StillPasses(items: seq<Data>, x: Data, path: Path, errors: multiset<Error>)
    requires Passes(DList(items), path, errors)
    ensures Passes(DList(items + [x]), path, errors)
  {
    forall e | e in errors
      ensures NullOn(DList(items + [x]), e.path[|path|..])
    {
      var rel := e.path[|path|..];
      assert NullOn(DList(items), rel);
      assert rel[0].Index? && (items + [x])[rel[0].index] == items[rel[0].index];
    }
  }

  /** Below item `k`, an error passes a null of the list when it passes one of the item. */
  lemma PassesItem(items: seq<Data>, k: nat, path: Path, e: Error)
    requires k < |items| && path + [Index(k)] <= e.path && NullOn(items[k], e.path[|path| + 1..])
    ensures path <= e.path && NullOn(DList(items), e.path[|path|..])
  {
    assert e.path[|path|..][1..] == e.path[|path| + 1..];
    assert e.path[|path|] == (path + [Index(k)])[|path|];
  }

  lemma {:induction false} ItemsDoneCorrespond(w: World, item: Completer, s: Slot, k: nat)
    requires s.value.Items? && k <= |s.value.items|
    ensures ItemsCorrespond(w, item, s, k, ItemsDone(w, item, s, k))
    decreases item, 3, k
  {
    if k == 0 {
      NoItemsYet(w, item, s, k);
    } else {
      ItemsDoneCorrespond(w, item, s, k - 1);
      NullsAndErrorsCorrespond(w, item, ItemSlot(s, k - 1));
      ItemDoneCorresponds(w, item, s, k - 1, k, ItemsDone(w, item, s, k - 1));
    }
  }

  lemma NoItemsYet(w: World, item: Completer, s: Slot, k: nat)
    requires s.value.Items? && k == 0
    ensures ItemsCorrespond(w, item, s, k, ItemsDone(w, item, s, k))
  {
  }

  lemma ItemDoneCorresponds(w: World, item: Completer, s: Slot, k: nat, next: nat, st: ItemState)
    requires s.value.Items? && k < next == k + 1 <= |s.value.items| && st == ItemsDone(w, item, s, k) && ItemsCorrespond(w, item, s, k, st)
    requires Corresponds(w, item, ItemSlot(s, k), One(w, item, ItemSlot(s, k)))
    ensures ItemsCorrespond(w, item, s, next, ItemsDone(w, item, s, next))
  {
    NextItemCorresponds(w, item, s, k, st, One(w, item, ItemSlot(s, k)));
  }

  lemma UnderItem(s: Slot, k: nat, errors: multiset<Error>)
    requires s.value.Items? && k < |s.value.items| && AllUnder(ItemSlot(s, k).path, errors)
    ensures AllUnder(s.path, errors)
  {
    forall e | e in errors ensures s.path <= e.path { assert s.path <= s.path + [Index(k)] <= e.path; }
  }

  lemma ValueIsClear(w: World, c: Completer, s: Slot, result: Completed)
    requires Sends(w, c, s, result) && result.Value?
    ensures Clear(w, c, s)
  {
    forall e ensures !Reaches(w, c, s, e) { assert result == Bubble(e) <==> Reaches(w, c, s, e); }
  }

  lemma BubbleIsNotClear(w: World, c: Completer, s: Slot, result: Completed)
    requires Sends(w, c, s, result) && result.Bubble?
    ensures !Clear(w, c, s) && Reaches(w, c, s, result.error)
  {
    assert result == Bubble(result.error) <==> Reaches(w, c, s, result.error);
  }

  /** A completed value at its position: the answer, or the null that stands in for a caught error. */
  lemma CaughtIsExplained(w: World, c: Completer, s: Slot, d: Done)
    requires Corresponds(w, c, s, d) && (d.result.Bubble? ==> !c.NonNull?)
    ensures ExplainedHere(w, c, s, if d.result.Value? then d.result.data else DNull)
  {
    if d.result.Bubble? { BubbleIsNotClear(w, c, s, d.result); } else { ValueIsClear(w, c, s, d.result); }
  }

  lemma OneMoreItemPasses(items: seq<Data>, x: Data, path: Path, errors: multiset<Error>, here: multiset<Error>)
    requires Passes(DList(items), path, errors) && Passes(x, path + [Index(|items|)], here)
    ensures Passes(DList(items + [x]), path, errors + here)
  {
    StillPasses(items, x, path, errors);
    forall e | e in here
      ensures path <= e.path && NullOn(DList(items + [x]), e.path[|path|..])
    {
      PassesItem(items + [x], |items|, path, e);
    }
  }

  /** A caught error shows as the null that stands in for its position. */
  lemma CaughtPasses(path: Path, errors: multiset<Error>)
    requires AllUnder(path, errors)
    ensures Passes(DNull, path, errors)
  {
  }

  lemma NextItemCorresponds(w: World, item: Completer, s: Slot, k: nat, st: ItemState, d: Done)
    requires s.value.Items? && k < |s.value.items|
    requires ItemsCorrespond(w, item, s, k, st) && Corresponds(w, item, ItemSlot(s, k), d)
    ensures ItemsCorrespond(w, item, s, k + 1, NextItem(st.(errors := st.errors + d.errors), item.NonNull?, d.result))
  {
    NextItemSends(w, item, s, k, st, d);
    assert st.bubble.Some? ==> item.NonNull? by { NullListIsNonNull(w, item, s, k, st.bubble); }
    NextItemHolds(w, item, s, k, st, d);
    if st.bubble.Some? || (d.result.Bubble? && item.NonNull?) {
      NextItemUnder(w, item, s, k, st, d);
    } else {
      NextItemAnswers(w, item, s, k, st, d);
    }
  }

  lemma NullListIsNonNull(w: World, item: Completer, s: Slot, k: nat, bubble: Option<Error>)
    requires s.value.Items? && k <= |s.value.items| && ItemsSend(w, item, s, k, bubble)
    ensures bubble.Some? ==> item.NonNull? && ItemsReach(w, item, s.value.items, s.path, k, bubble.value)
  {
    if bubble.Some? { assert bubble == Some(bubble.value) <==> ItemsReach(w, item, s.value.items, s.path, k, bubble.value); }
  }

  lemma NextItemSends(w: World, item: Completer, s: Slot, k: nat, st: ItemState, d: Done)
    requires s.value.Items? && k < |s.value.items|
    requires ItemsSend(w, item, s, k, st.bubble) && Sends(w, item, ItemSlot(s, k), d.result)
    ensures ItemsSend(w, item, s, k + 1, NextItem(st.(errors := st.errors + d.errors), item.NonNull?, d.result).bubble)
  {
    NullListIsNonNull(w, item, s, k, st.bubble);
    if d.result.Value? { ValueIsClear(w, item, ItemSlot(s, k), d.result); }
    var next := NextItem(st.(errors := st.errors + d.errors), item.NonNull?, d.result);
    forall e ensures next.bubble == Some(e) <==> ItemsReach(w, item, s.value.items, s.path, k + 1, e)
    {
      NextItemSendsOne(w, item, s, k, st, d, e);
    }
  }

  lemma NextItemSendsOne(w: World, item: Completer, s: Slot, k: nat, st: ItemState, d: Done, e: Error)
    requires s.value.Items? && k < |s.value.items|
    requires ItemsSend(w, item, s, k, st.bubble) && Sends(w, item, ItemSlot(s, k), d.result)
    ensures NextItem(st.(errors := st.errors + d.errors), item.NonNull?, d.result).bubble == Some(e) <==> ItemsReach(w, item, s.value.items, s.path, k + 1, e)
  {
    OneMoreItemReaches(w, item, s, k, e);
    assert st.bubble == Some(e) <==> ItemsReach(w, item, s.value.items, s.path, k, e);
    assert d.result == Bubble(e) <==> Reaches(w, item, ItemSlot(s, k), e);
    if st.bubble.Some? {
      NullListIsNonNull(w, item, s, k, st.bubble);
      LaterItemsDoNot(w, item, s, k, st.bubble.value, e);
    }
  }

  lemma OneMoreItemReaches(w: World, item: Completer, s: Slot, k: nat, e: Error)
    requires s.value.Items? && k < |s.value.items|
    ensures var items := s.value.items;
            ItemsReach(w, item, items, s.path, k + 1, e) <==> ItemsReach(w, item, items, s.path, k, e) || ItemReaches(w, item, items, s.path, k, e)
  {
  }

  lemma LaterItemsDoNot(w: World, item: Completer, s: Slot, k: nat, first: Error, e: Error)
    requires s.value.Items? && k < |s.value.items| && ItemsReach(w, item, s.value.items, s.path, k, first)
    ensures !ItemReaches(w, item, s.value.items, s.path, k, e)
  {
    var j :| 0 <= j < k && ItemReaches(w, item, s.value.items, s.path, j, first);
    assert !Clear(w, item, Slot(s.value.items[j], s.path + [Index(j)]));
  }

  lemma NextItemHolds(w: World, item: Completer, s: Slot, k: nat, st: ItemState, d: Done)
    requires s.value.Items? && k < |s.value.items| && (st.bubble.Some? ==> item.NonNull?)
    requires ItemsHold(w, item, s, k, st.errors) && Keeps(w, item, ItemSlot(s, k), d.errors) && Sends(w, item, ItemSlot(s, k), d.result)
    ensures ItemsHold(w, item, s, k + 1, NextItem(st.(errors := st.errors + d.errors), item.NonNull?, d.result).errors)
  {
    var next := NextItem(st.(errors := st.errors + d.errors), item.NonNull?, d.result);
    forall e ensures e in next.errors <==> ItemsKeep(w, item, s.value.items, s.path, k + 1, e)
    {
      OneMoreItemKeeps(w, item, s, k, e);
      assert e in st.errors <==> ItemsKeep(w, item, s.value.items, s.path, k, e);
      assert e in d.errors <==> Kept(w, item, ItemSlot(s, k), e);
      assert d.result == Bubble(e) <==> Reaches(w, item, ItemSlot(s, k), e);
    }
  }

  lemma OneMoreItemKeeps(w: World, item: Completer, s: Slot, k: nat, e: Error)
    requires s.value.Items? && k < |s.value.items|
    ensures var items := s.value.items;
            ItemsKeep(w, item, items, s.path, k + 1, e) <==> ItemsKeep(w, item, items, s.path, k, e) || KeptHere(w, item, ItemSlot(s, k), e)
  {
  }

  lemma OneMoreItemExplained(w: World, item: Completer, items: seq<Raw>, path: Path, answers: seq<Data>, x: Data)
    requires |answers| < |items| && ItemsExplained(w, item, items, path, answers)
    requires ExplainedHere(w, item, Slot(items[|answers|], path + [Index(|answers|)]), x)
    ensures ItemsExplained(w, item, items, path, answers + [x])
  {
  }

  lemma NextItemAnswers(w: World, item: Completer, s: Slot, k: nat, st: ItemState, d: Done)
    requires s.value.Items? && k < |s.value.items| && st.bubble.None? && (d.result.Bubble? ==> !item.NonNull?)
    requires |st.items| == k && ItemsExplained(w, item, s.value.items, s.path, st.items) && Passes(DList(st.items), s.path, st.errors)
    requires Corresponds(w, item, ItemSlot(s, k), d)
    ensures var next := NextItem(st.(errors := st.errors + d.errors), item.NonNull?, d.result);
            && next.bubble.None? && |next.items| == k + 1 && ItemsExplained(w, item, s.value.items, s.path, next.items)
            && Passes(DList(next.items), s.path, next.errors)
  {
    var here := if d.result.Value? then d.errors else d.errors + multiset{d.result.error};
    var x := if d.result.Value? then d.result.data else DNull;
    if d.result.Bubble? { CaughtPasses(ItemSlot(s, k).path, here); }
    CaughtIsExplained(w, item, ItemSlot(s, k), d);
    OneMoreItemExplained(w, item, s.value.items, s.path, st.items, x);
    OneMoreItemPasses(st.items, x, s.path, st.errors, here);
    var next := NextItem(st.(errors := st.errors + d.errors), item.NonNull?, d.result);
    assert next.items == st.items + [x] && next.errors == st.errors + here;
  }

  lemma NextItemUnder(w: World, item: Completer, s: Slot, k: nat, st: ItemState, d: Done)
    requires s.value.Items? && k < |s.value.items|
    requires ItemsCorrespond(w, item, s, k, st) && Corresponds(w, item, ItemSlot(s, k), d)
    requires st.bubble.Some? || (d.result.Bubble? && item.NonNull?)
    ensures var next := NextItem(st.(errors := st.errors + d.errors), item.NonNull?, d.result);
            next.bubble.Some? && s.path <= next.bubble.value.path && AllUnder(s.path, next.errors)
  {
    UnderItem(s, k, d.errors);
    if d.result.Bubble? {
      UnderItem(s, k, multiset{d.result.error});
    }
  }

  // ----- fields -----

  lemma StillPassesEntries(entries: seq<Entry>, x: Entry, path: Path, errors: multiset<Error>)
    requires Passes(DObject(entries), path, errors)
    ensures Passes(DObject(entries + [x]), path, errors)
  {
    forall e | e in errors
      ensures NullOn(DObject(entries + [x]), e.path[|path|..])
    {
      var rel := e.path[|path|..];
      assert NullOn(DObject(entries), rel);
      var j :| 0 <= j < |entries| && entries[j].name == rel[0].name && NullOn(entries[j].data, rel[1..]);
      assert (entries + [x])[j] == entries[j];
    }
  }

  lemma PassesEntry(entries: seq<Entry>, k: nat, path: Path, e: Error)
    requires k < |entries| && path + [Name(entries[k].name)] <= e.path && NullOn(entries[k].data, e.path[|path| + 1..])
    ensures path <= e.path && NullOn(DObject(entries), e.path[|path|..])
  {
    assert e.path[|path|..][1..] == e.path[|path| + 1..];
    assert e.path[|path|] == (path + [Name(entries[k].name)])[|path|];
  }

  lemma UnderField(w: World, f: Field, o: Slot, errors: multiset<Error>)
    requires AllUnder(FieldSlot(w, f, o).path, errors)
    ensures AllUnder(o.path, errors)
  {
    forall e | e in errors ensures o.path <= e.path { assert o.path <= o.path + [Name(f.name)] <= e.path; }
  }

  lemma {:induction false} FieldsDoneCorrespond(w: World, fields: seq<Field>, o: Slot, k: nat)
    requires k <= |fields|
    ensures FieldsCorrespond(w, fields, o, k, FieldsDone(w, fields, o, k))
    decreases fields, 1, k
  {
    if k == 0 {
      NoFieldsYet(w, fields, o, k);
    } else {
      FieldsDoneCorrespond(w, fields, o, k - 1);
      var f, st := fields[k - 1], FieldsDone(w, fields, o, k - 1);
      if st.bubble.None? { NullsAndErrorsCorrespond(w, f.completer, FieldSlot(w, f, o)); }
      FieldDoneCorresponds(w, fields, o, k - 1, k, st);
    }
  }

  lemma NoFieldsYet(w: World, fields: seq<Field>, o: Slot, k: nat)
    requires k == 0
    ensures FieldsCorrespond(w, fields, o, k, FieldsDone(w, fields, o, k))
  {
  }

  lemma FieldDoneCorresponds(w: World, fields: seq<Field>, o: Slot, k: nat, next: nat, st: FieldState)
    requires k < next == k + 1 <= |fields| && st == FieldsDone(w, fields, o, k) && FieldsCorrespond(w, fields, o, k, st)
    requires var c, at := fields[k].completer, FieldSlot(w, fields[k], o); st.bubble.None? ==> Corresponds(w, c, at, One(w, c, at))
    ensures FieldsCorrespond(w, fields, o, next, FieldsDone(w, fields, o, next))
  {
    if st.bubble.None? {
      NextFieldCorresponds(w, fields, o, k, st, One(w, fields[k].completer, FieldSlot(w, fields[k], o)));
    } else {
      NullObjectCorresponds(w, fields, o, k, st);
    }
  }

  /** Behind the field that nulls the object nothing more gets up to it or is caught. */
  lemma NullObjectCorresponds(w: World, fields: seq<Field>, o: Slot, k: nat, st: FieldState)
    requires k < |fields| && st.bubble.Some? && FieldsCorrespond(w, fields, o, k, st)
    ensures FieldsCorrespond(w, fields, o, k + 1, st)
  {
    assert st.bubble == Some(st.bubble.value) <==> FieldsReach(w, fields, o, k, st.bubble.value);
    var j :| 0 <= j < k && FieldReaches(w, fields, o, j, st.bubble.value);
    assert FieldNulls(w, fields, o, j);
    forall e ensures FieldsReach(w, fields, o, k + 1, e) <==> FieldsReach(w, fields, o, k, e) { OneMoreFieldReaches(w, fields, o, k, e); }
    forall e ensures FieldsKeep(w, fields, o, k + 1, e) <==> FieldsKeep(w, fields, o, k, e) { OneMoreFieldKeeps(w, fields, o, k, e); }
  }

  lemma OneMoreFieldReaches(w: World, fields: seq<Field>, o: Slot, k: nat, e: Error)
    requires k < |fields|
    ensures FieldsReach(w, fields, o, k + 1, e) <==> FieldsReach(w, fields, o, k, e) || FieldReaches(w, fields, o, k, e)
  {
  }

  lemma OneMoreFieldKeeps(w: World, fields: seq<Field>, o: Slot, k: nat, e: Error)
    requires k < |fields|
    ensures FieldsKeep(w, fields, o, k + 1, e) <==> FieldsKeep(w, fields, o, k, e) || FieldKeeps(w, fields, o, k, e)
  {
  }

  lemma OneMoreEntryPasses(entries: seq<Entry>, x: Entry, path: Path, errors: multiset<Error>, here: multiset<Error>)
    requires Passes(DObject(entries), path, errors) && Passes(x.data, path + [Name(x.name)], here)
    ensures Passes(DObject(entries + [x]), path, errors + here)
  {
    StillPassesEntries(entries, x, path, errors);
    forall e | e in here
      ensures path <= e.path && NullOn(DObject(entries + [x]), e.path[|path|..])
    {
      PassesEntry(entries + [x], |entries|, path, e);
    }
  }

  lemma NextFieldCorresponds(w: World, fields: seq<Field>, o: Slot, k: nat, st: FieldState, d: Done)
    requires k < |fields| && st.bubble.None?
    requires FieldsCorrespond(w, fields, o, k, st) && Corresponds(w, fields[k].completer, FieldSlot(w, fields[k], o), d)
    ensures FieldsCorrespond(w, fields, o, k + 1, NextField(st.(errors := st.errors + d.errors), fields[k], d.result))
  {
    NextFieldSends(w, fields, o, k, st, d);
    NextFieldHolds(w, fields, o, k, st, d);
    if d.result.Bubble? && fields[k].completer.NonNull? {
      UnderField(w, fields[k], o, d.errors);
      UnderField(w, fields[k], o, multiset{d.result.error});
      NextFieldUnder(o, fields[k], st, d);
    } else {
      NextFieldAnswers(w, fields, o, k, st, d);
    }
  }

  lemma NextFieldSends(w: World, fields: seq<Field>, o: Slot, k: nat, st: FieldState, d: Done)
    requires k < |fields| && st.bubble.None?
    requires FieldsSend(w, fields, o, k, st.bubble) && Sends(w, fields[k].completer, FieldSlot(w, fields[k], o), d.result)
    ensures FieldsSend(w, fields, o, k + 1, NextField(st.(errors := st.errors + d.errors), fields[k], d.result).bubble)
  {
    var c, at := fields[k].completer, FieldSlot(w, fields[k], o);
    var next := NextField(st.(errors := st.errors + d.errors), fields[k], d.result);
    forall e ensures next.bubble == Some(e) <==> FieldsReach(w, fields, o, k + 1, e)
    {
      OneMoreFieldReaches(w, fields, o, k, e);
      assert d.result == Bubble(e) <==> Reaches(w, c, at, e);
    }
    if d.result.Value? { ValueIsClear(w, c, at, d.result); }
  }

  lemma NextFieldHolds(w: World, fields: seq<Field>, o: Slot, k: nat, st: FieldState, d: Done)
    requires k < |fields| && FieldsSend(w, fields, o, k, st.bubble) && st.bubble.None? && FieldsHold(w, fields, o, k, st.errors)
    requires var c, at := fields[k].completer, FieldSlot(w, fields[k], o); Keeps(w, c, at, d.errors) && Sends(w, c, at, d.result)
    ensures FieldsHold(w, fields, o, k + 1, NextField(st.(errors := st.errors + d.errors), fields[k], d.result).errors)
  {
    var c, at := fields[k].completer, FieldSlot(w, fields[k], o);
    var next := NextField(st.(errors := st.errors + d.errors), fields[k], d.result);
    forall e ensures e in next.errors <==> FieldsKeep(w, fields, o, k + 1, e)
    {
      OneMoreFieldKeeps(w, fields, o, k, e);
      assert e in st.errors <==> FieldsKeep(w, fields, o, k, e);
      assert e in d.errors <==> Kept(w, c, at, e);
      assert d.result == Bubble(e) <==> Reaches(w, c, at, e);
    }
  }

  lemma OneMoreEntryExplained(w: World, fields: seq<Field>, o: Slot, entries: seq<Entry>, x: Entry)
    requires |entries| < |fields| && EntriesExplained(w, fields, o, entries) && EntryExplained(w, fields, o, |entries|, x)
    ensures EntriesExplained(w, fields, o, entries + [x])
  {
  }

  lemma NextFieldAnswers(w: World, fields: seq<Field>, o: Slot, k: nat, st: FieldState, d: Done)
    requires k < |fields| && st.bubble.None? && (d.result.Bubble? ==> !fields[k].completer.NonNull?)
    requires |st.entries| == k && EntriesExplained(w, fields, o, st.entries) && Passes(DObject(st.entries), o.path, st.errors)
    requires Corresponds(w, fields[k].completer, FieldSlot(w, fields[k], o), d)
    ensures var next := NextField(st.(errors := st.errors + d.errors), fields[k], d.result);
            && next.bubble.None? && |next.entries| == k + 1 && EntriesExplained(w, fields, o, next.entries)
            && Passes(DObject(next.entries), o.path, next.errors)
  {
    var f := fields[k];
    var here := if d.result.Value? then d.errors else d.errors + multiset{d.result.error};
    var x := if d.result.Value? then d.result.data else DNull;
    if d.result.Bubble? { CaughtPasses(FieldSlot(w, f, o).path, here); }
    CaughtIsExplained(w, f.completer, FieldSlot(w, f, o), d);
    OneMoreEntryExplained(w, fields, o, st.entries, Entry(f.name, x));
    OneMoreEntryPasses(st.entries, Entry(f.name, x), o.path, st.errors, here);
    var next := NextField(st.(errors := st.errors + d.errors), f, d.result);
    assert next.entries == st.entries + [Entry(f.name, x)] && next.errors == st.errors + here;
  }

  lemma NextFieldUnder(o: Slot, f: Field, st: FieldState, d: Done)
    requires st.bubble.None? && d.result.Bubble? && f.completer.NonNull?
    requires forall e :: e in st.errors ==> o.path <= e.path
    requires AllUnder(o.path, d.errors) && AllUnder(o.path, multiset{d.result.error})
    ensures var next := NextField(st.(errors := st.errors + d.errors), f, d.result);
            next.bubble.Some? && o.path <= next.bubble.value.path && AllUnder(o.path, next.errors)
  {
    assert d.result.error in multiset{d.result.error};
  }

  // ----- no error twice -----

  /** Response names differ within every selection, as the keys of a collected selection set do. */
  ghost predicate Named(c: Completer)
    decreases c, 0
  {
    match c
    case Leaf(_) => true
    case NonNull(inner) => Named(inner)
    case List(item) => Named(item)
    case Object(_, fields) => FieldsNamed(fields)
    case Abstract(_, cases) => forall i :: 0 <= i < |cases| ==> FieldsNamed(cases[i].fields)
  }

  ghost predicate FieldsNamed(fields: seq<Field>)
    decreases fields, 1
  {
    && (forall i, j :: 0 <= i < j < |fields| ==> fields[i].name != fields[j].name)
    && (forall i :: 0 <= i < |fields| ==> Named(fields[i].completer))
  }

  /** No error is recorded twice, nor recorded and still on its way up. */
  ghost predicate Once(errors: multiset<Error>, bubble: Option<Error>)
  {
    forall e :: errors[e] + (if bubble == Some(e) then 1 else 0) <= 1
  }

  function Uncaught(result: Completed): Option<Error>
  {
    match result
    case Value(_) => None
    case Bubble(e) => Some(e)
  }

  /** Every error lies below one of `keys` at `path`. */
  ghost predicate LieBelow(path: Path, keys: set<Key>, errors: multiset<Error>, bubble: Option<Error>)
  {
    forall e :: e in errors || bubble == Some(e) ==> |path| < |e.path| && e.path[|path|] in keys
  }

  lemma BelowOne(w: World, c: Completer, s: Slot, d: Done, path: Path, key: Key)
    requires Corresponds(w, c, s, d) && s.path == path + [key]
    ensures LieBelow(path, {key}, d.errors, Uncaught(d.result))
  {
    forall e | e in d.errors || Uncaught(d.result) == Some(e)
      ensures |path| < |e.path| && e.path[|path|] == key
    {
      assert path + [key] <= e.path;
      assert e.path[|path|] == (path + [key])[|path|];
    }
  }

  /** What one more position records and sends is apart from what those before it did. */
  lemma OneMoreOnce(path: Path, keys: set<Key>, key: Key, errors: multiset<Error>, d: Done, nonNull: bool)
    requires key !in keys && LieBelow(path, keys, errors, None) && LieBelow(path, {key}, d.errors, Uncaught(d.result))
    requires Once(errors, None) && Once(d.errors, Uncaught(d.result))
    ensures var here := if d.result.Bubble? && !nonNull then d.errors + multiset{d.result.error} else d.errors;
            var bubble := if nonNull then Uncaught(d.result) else None;
            Once(errors + here, bubble) && LieBelow(path, keys + {key}, errors + here, bubble)
  {
    var here := if d.result.Bubble? && !nonNull then d.errors + multiset{d.result.error} else d.errors;
    var bubble := if nonNull then Uncaught(d.result) else None;
    forall e ensures (errors + here)[e] + (if bubble == Some(e) then 1 else 0) <= 1
    {
      assert errors[e] <= 1;
      assert d.errors[e] + (if Uncaught(d.result) == Some(e) then 1 else 0) <= 1;
      assert e in errors ==> e.path[|path|] in keys;
      assert e in d.errors || Uncaught(d.result) == Some(e) ==> e.path[|path|] == key;
    }
  }

  /** The same behind an item that nulled the list: its error stays the one on its way. */
  lemma OneMoreOnceBehind(path: Path, keys: set<Key>, key: Key, errors: multiset<Error>, first: Error, d: Done)
    requires key !in keys && LieBelow(path, keys, errors, Some(first)) && LieBelow(path, {key}, d.errors, Uncaught(d.result))
    requires Once(errors, Some(first)) && Once(d.errors, Uncaught(d.result))
    ensures Once(errors + d.errors, Some(first)) && LieBelow(path, keys + {key}, errors + d.errors, Some(first))
  {
    forall e ensures (errors + d.errors)[e] + (if Some(first) == Some(e) then 1 else 0) <= 1
    {
      assert errors[e] + (if Some(first) == Some(e) then 1 else 0) <= 1;
      assert d.errors[e] <= 1 by { assert d.errors[e] + (if Uncaught(d.result) == Some(e) then 1 else 0) <= 1; }
      assert e in errors || e == first ==> e.path[|path|] in keys;
      assert e in d.errors ==> e.path[|path|] == key;
    }
  }

  function IndexesBelow(n: nat): (keys: set<Key>)
    ensures forall key :: key in keys <==> key.Index? && key.index < n
  {
    if n == 0 then {} else IndexesBelow(n - 1) + {Index(n - 1)}
  }

  function NamesBelow(fields: seq<Field>, n: nat): (keys: set<Key>)
    requires n <= |fields|
    ensures forall i :: 0 <= i < n ==> Name(fields[i].name) in keys
    ensures forall key :: key in keys ==> exists i :: 0 <= i < n && key == Name(fields[i].name)
  {
    if n == 0 then {} else NamesBelow(fields, n - 1) + {Name(fields[n - 1].name)}
  }

  ghost predicate ItemsOnce(path: Path, n: nat, st: ItemState)
  {
    Once(st.errors, st.bubble) && LieBelow(path, IndexesBelow(n), st.errors, st.bubble)
  }

  ghost predicate FieldsOnce(fields: seq<Field>, path: Path, n: nat, st: FieldState)
    requires n <= |fields|
  {
    Once(st.errors, st.bubble) && LieBelow(path, NamesBelow(fields, n), st.errors, st.bubble)
  }

  lemma {:induction false} NullKeepsNothing(w: World, c: Completer, s: Slot, e: Error)
    requires s.value.Null?
    ensures !Kept(w, c, s, e)
    decreases c
  {
    if c.NonNull? { NullKeepsNothing(w, c.inner, s, e); }
  }

  lemma NonNullOnce(w: World, inner: Completer, s: Slot, d: Done)
    requires Corresponds(w, inner, s, d) && Once(d.errors, Uncaught(d.result))
    ensures Once(d.errors, Uncaught(EnforceNonNull(d.result, s.path)))
  {
    if d.result == Value(DNull) {
      NullIsNull(w, inner, s);
      forall e ensures e !in d.errors { NullKeepsNothing(w, inner, s, e); assert e in d.errors <==> Kept(w, inner, s, e); }
    }
  }

  lemma NextItemOnce(w: World, item: Completer, s: Slot, k: nat, st: ItemState, d: Done)
    requires s.value.Items? && k < |s.value.items| && ItemsOnce(s.path, k, st)
    requires Corresponds(w, item, ItemSlot(s, k), d) && Once(d.errors, Uncaught(d.result))
    ensures ItemsOnce(s.path, k + 1, NextItem(st.(errors := st.errors + d.errors), item.NonNull?, d.result))
  {
    BelowOne(w, item, ItemSlot(s, k), d, s.path, Index(k));
    assert IndexesBelow(k + 1) == IndexesBelow(k) + {Index(k)};
    if st.bubble.Some? {
      OneMoreOnceBehind(s.path, IndexesBelow(k), Index(k), st.errors, st.bubble.value, d);
    } else {
      OneMoreOnce(s.path, IndexesBelow(k), Index(k), st.errors, d, item.NonNull?);
      if d.result.Bubble? { ThreeErrors(st.errors, d.errors, d.result.error); }
    }
  }

  lemma ThreeErrors(a: multiset<Error>, b: multiset<Error>, e: Error)
    ensures a + b + multiset{e} == a + (b + multiset{e})
  {
  }

  lemma NextFieldOnce(w: World, fields: seq<Field>, o: Slot, k: nat, st: FieldState, d: Done)
    requires k < |fields| && FieldsNamed(fields) && st.bubble.None? && FieldsOnce(fields, o.path, k, st)
    requires Corresponds(w, fields[k].completer, FieldSlot(w, fields[k], o), d) && Once(d.errors, Uncaught(d.result))
    ensures FieldsOnce(fields, o.path, k + 1, NextField(st.(errors := st.errors + d.errors), fields[k], d.result))
  {
    var key := Name(fields[k].name);
    BelowOne(w, fields[k].completer, FieldSlot(w, fields[k], o), d, o.path, key);
    assert key !in NamesBelow(fields, k);
    assert NamesBelow(fields, k + 1) == NamesBelow(fields, k) + {key};
    OneMoreOnce(o.path, NamesBelow(fields, k), key, st.errors, d, fields[k].completer.NonNull?);
    if d.result.Bubble? { ThreeErrors(st.errors, d.errors, d.result.error); }
  }

  lemma {:induction false} ItemsRecordedOnce(w: World, item: Completer, s: Slot, k: nat)
    requires s.value.Items? && k <= |s.value.items| && Named(item)
    ensures ItemsOnce(s.path, k, ItemsDone(w, item, s, k))
    decreases item, 1, k
  {
    if k == 0 {
    } else {
      ItemsRecordedOnce(w, item, s, k - 1);
      RecordedOnce(w, item, ItemSlot(s, k - 1));
      ItemRecordedOnce(w, item, s, k - 1, k, ItemsDone(w, item, s, k - 1));
    }
  }

  lemma ItemRecordedOnce(w: World, item: Completer, s: Slot, k: nat, next: nat, st: ItemState)
    requires s.value.Items? && k < next == k + 1 <= |s.value.items| && st == ItemsDone(w, item, s, k) && ItemsOnce(s.path, k, st)
    requires var d := One(w, item, ItemSlot(s, k)); Once(d.errors, Uncaught(d.result))
    ensures ItemsOnce(s.path, next, ItemsDone(w, item, s, next))
  {
    NullsAndErrorsCorrespond(w, item, ItemSlot(s, k));
    NextItemOnce(w, item, s, k, st, One(w, item, ItemSlot(s, k)));
  }

  lemma {:induction false} FieldsRecordedOnce(w: World, fields: seq<Field>, o: Slot, k: nat)
    requires k <= |fields| && FieldsNamed(fields)
    ensures FieldsOnce(fields, o.path, k, FieldsDone(w, fields, o, k))
    decreases fields, 1, k
  {
    if k == 0 {
      NoFieldsOnce(w, fields, o, k);
    } else {
      FieldsRecordedOnce(w, fields, o, k - 1);
      OneFieldNamed(fields, k - 1);
      RecordedOnce(w, fields[k - 1].completer, FieldSlot(w, fields[k - 1], o));
      FieldRecordedOnce(w, fields, o, k - 1, k, FieldsDone(w, fields, o, k - 1));
    }
  }

  lemma NoFieldsOnce(w: World, fields: seq<Field>, o: Slot, k: nat)
    requires k == 0
    ensures FieldsOnce(fields, o.path, k, FieldsDone(w, fields, o, k))
  {
  }

  lemma OneFieldNamed(fields: seq<Field>, k: nat)
    requires k < |fields| && FieldsNamed(fields)
    ensures Named(fields[k].completer)
  {
  }

  lemma FieldRecordedOnce(w: World, fields: seq<Field>, o: Slot, k: nat, next: nat, st: FieldState)
    requires k < next == k + 1 <= |fields| && FieldsNamed(fields) && st == FieldsDone(w, fields, o, k) && FieldsOnce(fields, o.path, k, st)
    requires var d := One(w, fields[k].completer, FieldSlot(w, fields[k], o)); Once(d.errors, Uncaught(d.result))
    ensures FieldsOnce(fields, o.path, next, FieldsDone(w, fields, o, next))
  {
    if st.bubble.None? {
      NullsAndErrorsCorrespond(w, fields[k].completer, FieldSlot(w, fields[k], o));
      NextFieldOnce(w, fields, o, k, st, One(w, fields[k].completer, FieldSlot(w, fields[k], o)));
    } else {
      assert NamesBelow(fields, next) == NamesBelow(fields, k) + {Name(fields[k].name)};
    }
  }

  /** With distinct response names an error is recorded at most once, and one on its way up not at all. */
  lemma {:induction false} RecordedOnce(w: World, c: Completer, s: Slot)
    requires Named(c)
    ensures Once(One(w, c, s).errors, Uncaught(One(w, c, s).result))
    decreases c, 0
  {
    match c
    case Leaf(t) =>
    case NonNull(inner) =>
      RecordedOnce(w, inner, s);
      NullsAndErrorsCorrespond(w, inner, s);
      NonNullOnce(w, inner, s, One(w, inner, s));
    case List(item) =>
      if s.value.Items? { ItemsRecordedOnce(w, item, s, |s.value.items|); }
    case _ =>
      match EnterObject(w, c, s)
      case Settled(_) =>
      case Enter(fields) => FieldsRecordedOnce(w, fields, s, |fields|);
  }

  // ----- a whole response -----

  datatype Response = Response(data: Data, errors: multiset<Error>)

  /** `entry.py`: an operation whose root was nulled answers null and records that error too. */
  function Respond(d: Done): Response
  {
    match d.result
    case Value(data) => Response(data, d.errors)
    case Bubble(e) => Response(DNull, d.errors + multiset{e})
  }

  lemma RespondsOnce(st: FieldState)
    requires Once(st.errors, st.bubble)
    ensures forall e :: Respond(Assemble(st)).errors[e] <= 1
  {
    forall e ensures Respond(Assemble(st)).errors[e] <= 1 { assert st.errors[e] + (if st.bubble == Some(e) then 1 else 0) <= 1; }
  }

  /** Over a whole response: the root is null exactly when an error gets up to it and is the object of its answered fields
      otherwise; what is recorded is exactly that error and those caught below; and every recorded error's path meets a null. */
  lemma ResponseCorresponds(w: World, fields: seq<Field>, root: Raw)
    ensures var o, n := Slot(root, []), |fields|;
            var r := Respond(Assemble(FieldsDone(w, fields, o, n)));
            && Passes(r.data, [], r.errors)
            && (r.data.DNull? <==> exists e :: FieldsReach(w, fields, o, n, e))
            && (forall e :: e in r.errors <==> FieldsReach(w, fields, o, n, e) || FieldsKeep(w, fields, o, n, e))
            && (!r.data.DNull? ==> r.data.DObject? && |r.data.entries| == n && EntriesExplained(w, fields, o, r.data.entries))
            && (FieldsNamed(fields) ==> forall e :: r.errors[e] <= 1)
  {
    var o, n := Slot(root, []), |fields|;
    FieldsDoneCorrespond(w, fields, o, n);
    var st := FieldsDone(w, fields, o, n);
    if FieldsNamed(fields) {
      FieldsRecordedOnce(w, fields, o, n);
      RespondsOnce(st);
    }
    forall e ensures e in Respond(Assemble(st)).errors <==> FieldsReach(w, fields, o, n, e) || FieldsKeep(w, fields, o, n, e)
    {
      assert st.bubble == Some(e) <==> FieldsReach(w, fields, o, n, e);
      assert e in st.errors <==> FieldsKeep(w, fields, o, n, e);
    }
    if st.bubble.Some? {
      assert FieldsReach(w, fields, o, n, st.bubble.value);
    }
  }
}
