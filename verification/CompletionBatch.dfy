/** The batched engine: one call completes a whole batch; lists are flattened into one batch and collected again,
    objects run as one bucket and are scattered back, abstract values are grouped by concrete type. */
module CompletionBatch {
  import opened Wrappers
  import opened Completion
  import opened CompletionLaws

  /** The execution context's error list. */
  class Context {
    var errors: seq<Error>

    constructor ()
      ensures errors == []
    {
      errors := [];
    }

    method Append(e: Error)
      modifies this
      ensures errors == old(errors) + [e]
    {
      errors := errors + [e];
    }
  }

  ghost function Recorded(ctx: Context): multiset<Error>
    reads ctx
  {
    multiset(ctx.errors)
  }

  /** A catching position records the error of a bubble that reaches it and takes null instead. */
  method CatchBubble(ctx: Context, c: Completer, r: Completed) returns (data: Data)
    requires r.Value? || !c.NonNull?
    modifies ctx
    ensures data == if r.Bubble? then DNull else r.data
    ensures Recorded(ctx) == old(Recorded(ctx)) + CaughtHere(c, r)
  {
    if r.Bubble? {
      ctx.Append(r.error);
      data := DNull;
    } else {
      data := r.data;
    }
  }

  function CaughtHere(c: Completer, r: Completed): multiset<Error>
  {
    if r.Bubble? && !c.NonNull? then multiset{r.error} else multiset{}
  }

  // ----- error sums -----

  /** What completing each value of the batch alone would record, all together. */
  ghost function BatchErrors(w: World, c: Completer, batch: seq<Slot>): multiset<Error>
    decreases |batch|
  {
    if batch == [] then multiset{}
    else BatchErrors(w, c, batch[..|batch| - 1]) + One(w, c, batch[|batch| - 1]).errors
  }

  lemma BatchAppend(w: World, c: Completer, batch: seq<Slot>, s: Slot)
    ensures BatchErrors(w, c, batch + [s]) == BatchErrors(w, c, batch) + One(w, c, s).errors
  {
    assert (batch + [s])[..|batch|] == batch;
  }

  lemma BatchNext(w: World, c: Completer, batch: seq<Slot>, i: nat)
    requires i < |batch|
    ensures BatchErrors(w, c, batch[..i + 1]) == BatchErrors(w, c, batch[..i]) + One(w, c, batch[i]).errors
  {
    assert batch[..i + 1] == batch[..i] + [batch[i]];
    BatchAppend(w, c, batch[..i], batch[i]);
  }

  /** Each result is the one the value would have alone. */
  ghost predicate Pointwise(w: World, c: Completer, batch: seq<Slot>, results: seq<Completed>)
  {
    |results| == |batch| && forall i :: 0 <= i < |batch| ==> results[i] == One(w, c, batch[i]).result
  }

  lemma PointwiseNext(w: World, c: Completer, batch: seq<Slot>, i: nat, results: seq<Completed>, r: Completed)
    requires i < |batch| && Pointwise(w, c, batch[..i], results) && r == One(w, c, batch[i]).result
    ensures Pointwise(w, c, batch[..i + 1], results + [r])
  {
    assert batch[..i + 1] == batch[..i] + [batch[i]];
  }

  // ----- leaves and non-null -----

  /** A null stays null; a serializable value is answered by its serialization and nothing else; a raised value and a refused
      serialization are errors at this place. */
  predicate LeafAnswered(w: World, leafType: string, s: Slot, result: Completed)
  {
    if s.value.Null? then result == Value(DNull)
    else if s.value.Raised? then result == Bubble(Error(s.path, Failed(s.value.message)))
    else if w.serialize(leafType, s.value).None? then result == Bubble(Error(s.path, NotSerializable))
    else result == Value(DLeaf(w.serialize(leafType, s.value).value))
  }

  method CompleteLeafValues(w: World, c: Completer, batch: seq<Slot>) returns (results: seq<Completed>)
    requires c.Leaf?
    ensures Pointwise(w, c, batch, results) && BatchErrors(w, c, batch) == multiset{}
    ensures forall i :: 0 <= i < |batch| ==> LeafAnswered(w, c.leafType, batch[i], results[i])
  {
    results := [];
    for i := 0 to |batch|
      invariant Pointwise(w, c, batch[..i], results) && BatchErrors(w, c, batch[..i]) == multiset{}
      invariant forall j :: 0 <= j < i ==> LeafAnswered(w, c.leafType, batch[j], results[j])
    {
      BatchNext(w, c, batch, i);
      results := results + [CompleteSingleLeaf(w, c.leafType, batch[i])];
    }
    assert batch[..|batch|] == batch;
  }

  method EnforceAll(w: World, c: Completer, batch: seq<Slot>, inner: seq<Completed>) returns (results: seq<Completed>)
    requires c.NonNull? && Pointwise(w, c.inner, batch, inner)
    ensures Pointwise(w, c, batch, results) && BatchErrors(w, c, batch) == BatchErrors(w, c.inner, batch)
  {
    results := [];
    for i := 0 to |batch|
      invariant Pointwise(w, c, batch[..i], results) && BatchErrors(w, c, batch[..i]) == BatchErrors(w, c.inner, batch[..i])
    {
      BatchNext(w, c, batch, i);
      BatchNext(w, c.inner, batch, i);
      results := results + [EnforceNonNull(inner[i], batch[i].path)];
    }
    assert batch[..|batch|] == batch;
  }

  // ----- lists: flatten, complete, collect -----

  /** Where a source list's items lie in the flattened batch, or why it has none. */
  datatype Span = Run(start: nat, length: nat) | NullSpan | Invalid(error: Error)

  ghost function ItemErrors(w: World, item: Completer, s: Slot, k: nat): multiset<Error>
    requires s.value.Items? && k <= |s.value.items|
  {
    if k == 0 then multiset{} else ItemErrors(w, item, s, k - 1) + One(w, item, ItemSlot(s, k - 1)).errors
  }

  /** The item errors this list catches. */
  ghost function Caught(w: World, item: Completer, s: Slot, k: nat): multiset<Error>
    requires s.value.Items? && k <= |s.value.items|
  {
    if k == 0 then multiset{}
    else Caught(w, item, s, k - 1) + CaughtHere(item, One(w, item, ItemSlot(s, k - 1)).result)
  }

  lemma NextItemErrors(st: ItemState, item: Completer, r: Completed)
    requires st.bubble.None? || item.NonNull?
    ensures NextItem(st, item.NonNull?, r).errors == st.errors + CaughtHere(item, r)
    ensures st.bubble.None? && !item.NonNull? ==> NextItem(st, item.NonNull?, r).bubble.None?
  {
  }

  lemma {:induction false} ListErrorsSplit(w: World, item: Completer, s: Slot, k: nat)
    requires s.value.Items? && k <= |s.value.items|
    ensures ItemsDone(w, item, s, k).errors == ItemErrors(w, item, s, k) + Caught(w, item, s, k)
    ensures item.NonNull? || ItemsDone(w, item, s, k).bubble.None?
  {
    if k > 0 {
      ListErrorsSplit(w, item, s, k - 1);
      var d := One(w, item, ItemSlot(s, k - 1));
      var st := ItemsDone(w, item, s, k - 1);
      NextItemErrors(st.(errors := st.errors + d.errors), item, d.result);
      Regrouped(ItemErrors(w, item, s, k - 1), Caught(w, item, s, k - 1), d.errors, CaughtHere(item, d.result));
    }
  }

  lemma Regrouped(a: multiset<Error>, b: multiset<Error>, c: multiset<Error>, d: multiset<Error>)
    ensures a + b + c + d == (a + c) + (b + d)
  {
  }

  lemma {:induction false} NonNullCatchesNothing(w: World, item: Completer, s: Slot, k: nat)
    requires s.value.Items? && k <= |s.value.items| && item.NonNull?
    ensures Caught(w, item, s, k) == multiset{}
  {
    if k > 0 {
      NonNullCatchesNothing(w, item, s, k - 1);
    }
  }

  ghost function SlotItemErrors(w: World, item: Completer, s: Slot): multiset<Error>
  {
    if s.value.Items? then ItemErrors(w, item, s, |s.value.items|) else multiset{}
  }

  ghost function SlotCaught(w: World, item: Completer, s: Slot): multiset<Error>
  {
    if s.value.Items? then Caught(w, item, s, |s.value.items|) else multiset{}
  }

  ghost function FlatErrors(w: World, item: Completer, batch: seq<Slot>): multiset<Error>
    decreases |batch|
  {
    if batch == [] then multiset{} else FlatErrors(w, item, batch[..|batch| - 1]) + SlotItemErrors(w, item, batch[|batch| - 1])
  }

  ghost function CaughtErrors(w: World, item: Completer, batch: seq<Slot>): multiset<Error>
    decreases |batch|
  {
    if batch == [] then multiset{} else CaughtErrors(w, item, batch[..|batch| - 1]) + SlotCaught(w, item, batch[|batch| - 1])
  }

  lemma FlatNext(w: World, item: Completer, batch: seq<Slot>, i: nat)
    requires i < |batch|
    ensures FlatErrors(w, item, batch[..i + 1]) == FlatErrors(w, item, batch[..i]) + SlotItemErrors(w, item, batch[i])
    ensures CaughtErrors(w, item, batch[..i + 1]) == CaughtErrors(w, item, batch[..i]) + SlotCaught(w, item, batch[i])
  {
    assert batch[..i + 1][..i] == batch[..i];
  }

  lemma {:induction false} BatchOfListsSplits(w: World, c: Completer, batch: seq<Slot>)
    requires c.List?
    ensures BatchErrors(w, c, batch) == FlatErrors(w, c.item, batch) + CaughtErrors(w, c.item, batch)
    decreases |batch|
  {
    if batch != [] {
      BatchOfListsSplits(w, c, batch[..|batch| - 1]);
      var s := batch[|batch| - 1];
      if s.value.Items? {
        ListErrorsSplit(w, c.item, s, |s.value.items|);
      }
    }
  }

  ghost predicate SpanFits(s: Slot, items: seq<Slot>, span: Span)
  {
    match s.value
    case Items(xs) => span.Run? && span.length == |xs| && span.start + |xs| <= |items|
                      && forall k :: 0 <= k < |xs| ==> items[span.start + k] == ItemSlot(s, k)
    case Null => span.NullSpan?
    case _ => span == Invalid(NotAList(s).error)
  }

  lemma MoreItemErrors(w: World, item: Completer, s: Slot, k: nat, items: seq<Slot>, before: multiset<Error>)
    requires s.value.Items? && k < |s.value.items| && BatchErrors(w, item, items) == before + ItemErrors(w, item, s, k)
    ensures BatchErrors(w, item, items + [ItemSlot(s, k)]) == before + ItemErrors(w, item, s, k + 1)
  {
    BatchAppend(w, item, items, ItemSlot(s, k));
  }

  /** The first `k` items of one list follow `items`. */
  ghost predicate Follow(s: Slot, items: seq<Slot>, items': seq<Slot>, k: nat)
    requires s.value.Items? && k <= |s.value.items|
  {
    |items'| == |items| + k && items <= items' && forall j :: 0 <= j < k ==> items'[|items| + j] == ItemSlot(s, j)
  }

  /** Appends one list's items to the flattened batch. */
  method AppendItems(ghost w: World, ghost item: Completer, s: Slot, items: seq<Slot>) returns (items': seq<Slot>)
    requires s.value.Items?
    ensures Follow(s, items, items', |s.value.items|)
    ensures BatchErrors(w, item, items') == BatchErrors(w, item, items) + SlotItemErrors(w, item, s)
  {
    items' := items;
    for index := 0 to |s.value.items|
      invariant Follow(s, items, items', index)
      invariant BatchErrors(w, item, items') == BatchErrors(w, item, items) + ItemErrors(w, item, s, index)
    {
      MoreItemErrors(w, item, s, index, items', BatchErrors(w, item, items));
      items' := items' + [ItemSlot(s, index)];
    }
  }

  ghost predicate SpansFit(batch: seq<Slot>, items: seq<Slot>, spans: seq<Span>)
  {
    |spans| <= |batch| && forall j :: 0 <= j < |spans| ==> SpanFits(batch[j], items, spans[j])
  }

  lemma OneMoreSpan(batch: seq<Slot>, items: seq<Slot>, items': seq<Slot>, spans: seq<Span>, span: Span)
    requires items <= items' && SpansFit(batch, items, spans) && |spans| < |batch| && SpanFits(batch[|spans|], items', span)
    ensures SpansFit(batch, items', spans + [span])
  {
    forall j | 0 <= j < |spans| ensures SpanFits(batch[j], items', spans[j]) { assert SpanFits(batch[j], items, spans[j]); }
  }

  method FlattenOne(ghost w: World, ghost item: Completer, s: Slot, items: seq<Slot>) returns (items': seq<Slot>, span: Span)
    ensures items <= items' && SpanFits(s, items', span)
    ensures BatchErrors(w, item, items') == BatchErrors(w, item, items) + SlotItemErrors(w, item, s)
  {
    items' := items;
    match s.value
    case Items(xs) =>
      span := Run(|items|, |xs|);
      items' := AppendItems(w, item, s, items);
    case Null => span := NullSpan;
    case _ => span := Invalid(NotAList(s).error);
  }

  method Flatten(ghost w: World, ghost item: Completer, batch: seq<Slot>) returns (items: seq<Slot>, spans: seq<Span>)
    ensures |spans| == |batch| && SpansFit(batch, items, spans)
    ensures BatchErrors(w, item, items) == FlatErrors(w, item, batch)
  {
    items, spans := [], [];
    for i := 0 to |batch|
      invariant |spans| == i && SpansFit(batch, items, spans)
      invariant BatchErrors(w, item, items) == FlatErrors(w, item, batch[..i])
    {
      FlatNext(w, item, batch, i);
      var more, span := FlattenOne(w, item, batch[i], items);
      OneMoreSpan(batch, items, more, spans, span);
      items, spans := more, spans + [span];
    }
    assert batch[..|batch|] == batch;
  }

  /** Re-collects the items of one list. */
  method CollectList(ctx: Context, w: World, item: Completer, ghost s: Slot, completed: seq<Completed>, start: nat, length: nat)
    returns (result: Completed)
    requires s.value.Items? && length == |s.value.items| && start + length <= |completed|
    requires forall k :: 0 <= k < length ==> completed[start + k] == One(w, item, ItemSlot(s, k)).result
    modifies ctx
    ensures result == One(w, List(item), s).result
    ensures Recorded(ctx) == old(Recorded(ctx)) + Caught(w, item, s, length)
  {
    var outList: seq<Data> := [];
    for k := 0 to length
      invariant CollectedTo(w, item, s, k, outList)
      invariant Recorded(ctx) == old(Recorded(ctx)) + Caught(w, item, s, k)
    {
      if completed[start + k].Bubble? && item.NonNull? {
        ItemsStop(w, item, s, k, outList, completed[start + k]);
        return completed[start + k];
      }
      outList := CollectItem(ctx, w, item, s, k, outList, completed[start + k]);
      CaughtSoFar(w, item, s, k, old(Recorded(ctx)));
    }
    result := Value(DList(outList));
  }

  /** One item that does not end its list. */
  method CollectItem(ctx: Context, ghost w: World, item: Completer, ghost s: Slot, ghost k: nat, outList: seq<Data>, r: Completed)
    returns (outList': seq<Data>)
    requires s.value.Items? && k < |s.value.items| && CollectedTo(w, item, s, k, outList)
    requires r == One(w, item, ItemSlot(s, k)).result && (r.Value? || !item.NonNull?)
    modifies ctx
    ensures CollectedTo(w, item, s, k + 1, outList')
    ensures Recorded(ctx) == old(Recorded(ctx)) + CaughtHere(item, One(w, item, ItemSlot(s, k)).result)
  {
    ItemsGoOn(w, item, s, k, outList, r);
    var data := CatchBubble(ctx, item, r);
    outList' := outList + [data];
  }

  lemma CaughtSoFar(w: World, item: Completer, s: Slot, k: nat, before: multiset<Error>)
    requires s.value.Items? && k < |s.value.items|
    ensures before + Caught(w, item, s, k + 1) == before + Caught(w, item, s, k) + CaughtHere(item, One(w, item, ItemSlot(s, k)).result)
  {
  }

  ghost predicate CollectedTo(w: World, item: Completer, s: Slot, k: nat, outList: seq<Data>)
    requires s.value.Items? && k <= |s.value.items|
  {
    ItemsDone(w, item, s, k).bubble.None? && outList == ItemsDone(w, item, s, k).items
  }

  /** The first bubble at a non-null item is where the list stands from there on. */
  lemma ItemBubbles(w: World, item: Completer, s: Slot, k: nat, e: Error)
    requires s.value.Items? && k < |s.value.items| && ItemsDone(w, item, s, k).bubble.None?
    requires One(w, item, ItemSlot(s, k)).result == Bubble(e) && item.NonNull?
    ensures ItemsDone(w, item, s, k + 1).bubble == Some(e)
  {
  }

  lemma BubbledList(w: World, item: Completer, s: Slot, k: nat, e: Error)
    requires s.value.Items? && k <= |s.value.items| && ItemsDone(w, item, s, k).bubble == Some(e)
    ensures One(w, List(item), s).result == Bubble(e)
  {
    ItemsBubbled(w, item, s, k, |s.value.items|);
  }

  /** A bubble at a non-null item is the list's own result. */
  lemma ItemsStop(w: World, item: Completer, s: Slot, k: nat, outList: seq<Data>, r: Completed)
    requires s.value.Items? && k < |s.value.items| && CollectedTo(w, item, s, k, outList)
    requires r == One(w, item, ItemSlot(s, k)).result && r.Bubble? && item.NonNull?
    ensures One(w, List(item), s).result == r && Caught(w, item, s, |s.value.items|) == Caught(w, item, s, k)
  {
    ItemBubbles(w, item, s, k, r.error);
    BubbledList(w, item, s, k + 1, r.error);
    NonNullCatchesNothing(w, item, s, |s.value.items|);
    NonNullCatchesNothing(w, item, s, k);
  }

  lemma ItemsGoOn(w: World, item: Completer, s: Slot, k: nat, outList: seq<Data>, r: Completed)
    requires s.value.Items? && k < |s.value.items| && CollectedTo(w, item, s, k, outList)
    requires r == One(w, item, ItemSlot(s, k)).result && (r.Value? || !item.NonNull?)
    ensures CollectedTo(w, item, s, k + 1, outList + [if r.Bubble? then DNull else r.data])
  {
  }

  method CollectSpan(ctx: Context, w: World, c: Completer, ghost s: Slot, ghost items: seq<Slot>, completed: seq<Completed>, span: Span)
    returns (result: Completed)
    requires c.List? && Pointwise(w, c.item, items, completed) && SpanFits(s, items, span)
    modifies ctx
    ensures result == One(w, c, s).result
    ensures Recorded(ctx) == old(Recorded(ctx)) + SlotCaught(w, c.item, s)
  {
    match span
    case Invalid(e) => result := Bubble(e);
    case NullSpan => result := Value(DNull);
    case Run(start, length) =>
      assert c == List(c.item);
      assert forall k :: 0 <= k < length ==> items[start + k] == ItemSlot(s, k);
      result := CollectList(ctx, w, c.item, s, completed, start, length);
  }

  method CollectLists(ctx: Context, w: World, c: Completer, ghost batch: seq<Slot>, ghost items: seq<Slot>,
                      completed: seq<Completed>, spans: seq<Span>) returns (results: seq<Completed>)
    requires c.List? && Pointwise(w, c.item, items, completed)
    requires |spans| == |batch| && SpansFit(batch, items, spans)
    modifies ctx
    ensures Pointwise(w, c, batch, results)
    ensures Recorded(ctx) == old(Recorded(ctx)) + CaughtErrors(w, c.item, batch)
  {
    results := [];
    for i := 0 to |spans|
      invariant Pointwise(w, c, batch[..i], results)
      invariant Recorded(ctx) == old(Recorded(ctx)) + CaughtErrors(w, c.item, batch[..i])
    {
      FlatNext(w, c.item, batch, i);
      assert SpanFits(batch[i], items, spans[i]);
      var r := CollectSpan(ctx, w, c, batch[i], items, completed, spans[i]);
      PointwiseNext(w, c, batch, i, results, r);
      results := results + [r];
    }
    assert batch[..|batch|] == batch;
  }

  // ----- objects: one bucket, field by field over the objects still live -----

  /** The bucket's running outputs and the errors that nulled some of its objects. */
  class FieldCompletion {
    var outputs: seq<Option<seq<Entry>>>
    var bubble: seq<Option<Error>>

    constructor (n: nat)
      ensures outputs == seq(n, _ => Some([])) && bubble == seq(n, _ => None)
    {
      outputs, bubble := seq(n, _ => Some([])), seq(n, _ => None);
    }

    predicate IsLive(i: nat)
      requires i < |bubble| && i < |outputs|
      reads this
    {
      bubble[i].None? && outputs[i].Some?
    }
  }

  ghost predicate AtField(st: FieldState, output: Option<seq<Entry>>, bubble: Option<Error>)
  {
    bubble == st.bubble && output == if st.bubble.None? then Some(st.entries) else None
  }

  /** Object `i` of the bucket stands where it would stand alone after `k` fields. */
  ghost predicate Stands(w: World, fields: seq<Field>, objs: seq<Slot>, state: FieldCompletion, i: nat, k: nat)
    requires i < |objs| && |state.outputs| == |state.bubble| == |objs| && k <= |fields|
    reads state
  {
    AtField(FieldsDone(w, fields, objs[i], k), state.outputs[i], state.bubble[i])
  }

  ghost predicate AllStand(w: World, fields: seq<Field>, objs: seq<Slot>, state: FieldCompletion, k: nat)
    requires k <= |fields|
    reads state
  {
    |state.outputs| == |state.bubble| == |objs| && forall i :: 0 <= i < |objs| ==> Stands(w, fields, objs, state, i, k)
  }

  ghost function BucketErrors(w: World, fields: seq<Field>, objs: seq<Slot>, k: nat): multiset<Error>
    requires k <= |fields|
    decreases |objs|
  {
    if objs == [] then multiset{}
    else BucketErrors(w, fields, objs[..|objs| - 1], k) + FieldsDone(w, fields, objs[|objs| - 1], k).errors
  }

  /** What field `k` of one object adds to the recorded errors. */
  ghost function StepErrors(w: World, fields: seq<Field>, o: Slot, k: nat): multiset<Error>
    requires k < |fields|
  {
    if FieldsDone(w, fields, o, k).bubble.Some? then multiset{}
    else
      var d := One(w, fields[k].completer, FieldSlot(w, fields[k], o));
      d.errors + CaughtHere(fields[k].completer, d.result)
  }

  ghost function StepSum(w: World, fields: seq<Field>, objs: seq<Slot>, k: nat): multiset<Error>
    requires k < |fields|
    decreases |objs|
  {
    if objs == [] then multiset{} else StepSum(w, fields, objs[..|objs| - 1], k) + StepErrors(w, fields, objs[|objs| - 1], k)
  }

  lemma FieldAdds(w: World, fields: seq<Field>, o: Slot, k: nat)
    requires k < |fields|
    ensures FieldsDone(w, fields, o, k + 1).errors == FieldsDone(w, fields, o, k).errors + StepErrors(w, fields, o, k)
  {
    var st, f := FieldsDone(w, fields, o, k), fields[k];
    var d := One(w, f.completer, FieldSlot(w, f, o));
    if st.bubble.None? {
      NextFieldErrors(st.(errors := st.errors + d.errors), f, d.result);
    }
  }

  lemma NextFieldErrors(st: FieldState, f: Field, r: Completed)
    ensures NextField(st, f, r).errors == st.errors + CaughtHere(f.completer, r)
  {
  }

  lemma {:induction false} BucketAdds(w: World, fields: seq<Field>, objs: seq<Slot>, k: nat)
    requires k < |fields|
    ensures BucketErrors(w, fields, objs, k + 1) == BucketErrors(w, fields, objs, k) + StepSum(w, fields, objs, k)
    decreases |objs|
  {
    if objs != [] {
      BucketAdds(w, fields, objs[..|objs| - 1], k);
      FieldAdds(w, fields, objs[|objs| - 1], k);
    }
  }

  lemma {:induction false} NothingYet(w: World, fields: seq<Field>, objs: seq<Slot>)
    ensures BucketErrors(w, fields, objs, 0) == multiset{}
    decreases |objs|
  {
    if objs != [] {
      NothingYet(w, fields, objs[..|objs| - 1]);
    }
  }

  lemma StepNext(w: World, fields: seq<Field>, objs: seq<Slot>, k: nat, i: nat)
    requires k < |fields| && i < |objs|
    ensures StepSum(w, fields, objs[..i + 1], k) == StepSum(w, fields, objs[..i], k) + StepErrors(w, fields, objs[i], k)
  {
    assert objs[..i + 1][..i] == objs[..i];
  }

  /** What the batch's bubbles add at a field write. */
  ghost function BatchCaught(w: World, c: Completer, batch: seq<Slot>): multiset<Error>
    decreases |batch|
  {
    if batch == [] then multiset{}
    else BatchCaught(w, c, batch[..|batch| - 1]) + CaughtHere(c, One(w, c, batch[|batch| - 1]).result)
  }

  lemma CaughtNext(w: World, c: Completer, batch: seq<Slot>, i: nat)
    requires i < |batch|
    ensures BatchCaught(w, c, batch[..i + 1]) == BatchCaught(w, c, batch[..i]) + CaughtHere(c, One(w, c, batch[i]).result)
  {
    assert batch[..i + 1][..i] == batch[..i];
  }

  lemma CaughtAppend(w: World, c: Completer, batch: seq<Slot>, s: Slot)
    ensures BatchCaught(w, c, batch + [s]) == BatchCaught(w, c, batch) + CaughtHere(c, One(w, c, s).result)
  {
    assert (batch + [s])[..|batch|] == batch;
  }

  /** The live objects, in order, each with the field's value on it. */
  ghost predicate LiveBatch(w: World, f: Field, objs: seq<Slot>, n: nat, state: FieldCompletion, live: seq<nat>, batch: seq<Slot>)
    requires n <= |objs| && |state.outputs| == |state.bubble| == |objs|
    reads state
  {
    && |batch| == |live|
    && (forall j :: 0 <= j < |live| ==> live[j] < n && state.IsLive(live[j]) && batch[j] == FieldSlot(w, f, objs[live[j]]))
    && (forall i, j :: 0 <= i < j < |live| ==> live[i] < live[j])
    && (forall i :: 0 <= i < n && state.IsLive(i) ==> i in live)
  }

  ghost predicate LiveErrors(w: World, fields: seq<Field>, k: nat, objs: seq<Slot>, n: nat, batch: seq<Slot>)
    requires k < |fields| && n <= |objs|
  {
    BatchErrors(w, fields[k].completer, batch) + BatchCaught(w, fields[k].completer, batch) == StepSum(w, fields, objs[..n], k)
  }

  lemma LiveErrorsNext(w: World, fields: seq<Field>, k: nat, objs: seq<Slot>, n: nat, batch: seq<Slot>)
    requires k < |fields| && n < |objs| && LiveErrors(w, fields, k, objs, n, batch)
    ensures if FieldsDone(w, fields, objs[n], k).bubble.Some? then LiveErrors(w, fields, k, objs, n + 1, batch)
            else LiveErrors(w, fields, k, objs, n + 1, batch + [FieldSlot(w, fields[k], objs[n])])
  {
    var c, s := fields[k].completer, FieldSlot(w, fields[k], objs[n]);
    StepNext(w, fields, objs, k, n);
    BatchAppend(w, c, batch, s);
    CaughtAppend(w, c, batch, s);
  }

  ghost predicate SelectedTo(w: World, fields: seq<Field>, k: nat, objs: seq<Slot>, state: FieldCompletion, n: nat, live: seq<nat>, batch: seq<Slot>)
    requires k < |fields| && n <= |objs| && |state.outputs| == |state.bubble| == |objs|
    reads state
  {
    LiveBatch(w, fields[k], objs, n, state, live, batch) && LiveErrors(w, fields, k, objs, n, batch)
  }

  method SelectNext(w: World, fields: seq<Field>, k: nat, objs: seq<Slot>, state: FieldCompletion, i: nat, live: seq<nat>, batch: seq<Slot>)
    returns (live': seq<nat>, batch': seq<Slot>)
    requires k < |fields| && i < |objs| && |state.outputs| == |state.bubble| == |objs| && Stands(w, fields, objs, state, i, k)
    requires SelectedTo(w, fields, k, objs, state, i, live, batch)
    ensures SelectedTo(w, fields, k, objs, state, i + 1, live', batch')
  {
    live', batch' := live, batch;
    LiveErrorsNext(w, fields, k, objs, i, batch);
    if state.IsLive(i) {
      LiveAppend(w, fields[k], objs, i, state, live, batch);
      live', batch' := live + [i], batch + [FieldSlot(w, fields[k], objs[i])];
    }
  }

  method SelectLive(w: World, fields: seq<Field>, k: nat, objs: seq<Slot>, state: FieldCompletion) returns (live: seq<nat>, batch: seq<Slot>)
    requires k < |fields| && AllStand(w, fields, objs, state, k)
    ensures LiveBatch(w, fields[k], objs, |objs|, state, live, batch)
    ensures BatchErrors(w, fields[k].completer, batch) + BatchCaught(w, fields[k].completer, batch) == StepSum(w, fields, objs, k)
  {
    live, batch := [], [];
    for i := 0 to |objs|
      invariant SelectedTo(w, fields, k, objs, state, i, live, batch)
    {
      assert Stands(w, fields, objs, state, i, k);
      live, batch := SelectNext(w, fields, k, objs, state, i, live, batch);
    }
    assert objs[..|objs|] == objs;
  }

  lemma LiveAppend(w: World, f: Field, objs: seq<Slot>, n: nat, state: FieldCompletion, live: seq<nat>, batch: seq<Slot>)
    requires n < |objs| && |state.outputs| == |state.bubble| == |objs| && LiveBatch(w, f, objs, n, state, live, batch) && state.IsLive(n)
    ensures LiveBatch(w, f, objs, n + 1, state, live + [n], batch + [FieldSlot(w, f, objs[n])])
  {
    assert (live + [n])[|live|] == n;
  }

  function Written(f: Field, output: Option<seq<Entry>>, r: Completed): Option<seq<Entry>>
  {
    if output.None? || (r.Bubble? && f.completer.NonNull?) then None
    else Some(output.value + [Entry(f.name, if r.Bubble? then DNull else r.data)])
  }

  function Nulled(f: Field, r: Completed): Option<Error>
  {
    if r.Bubble? && f.completer.NonNull? then Some(r.error) else None
  }

  /** `write_value`: the field write catches a bubble at a nullable field and nulls the object at a non-null one. */
  method WriteValue(ctx: Context, f: Field, state: FieldCompletion, i: nat, completed: Completed)
    requires i < |state.outputs| && i < |state.bubble| && state.IsLive(i)
    modifies ctx, state
    ensures state.outputs == old(state.outputs)[i := Written(f, old(state.outputs)[i], completed)]
    ensures state.bubble == old(state.bubble)[i := Nulled(f, completed)]
    ensures Recorded(ctx) == old(Recorded(ctx)) + CaughtHere(f.completer, completed)
  {
    if completed.Bubble? && f.completer.NonNull? {
      state.outputs := state.outputs[i := None];
      state.bubble := state.bubble[i := Some(completed.error)];
      return;
    }
    var data := CatchBubble(ctx, f.completer, completed);
    state.outputs := state.outputs[i := Some(state.outputs[i].value + [Entry(f.name, data)])];
  }

  lemma FieldAdvances(w: World, fields: seq<Field>, o: Slot, k: nat, output: Option<seq<Entry>>, bubble: Option<Error>)
    requires k < |fields| && AtField(FieldsDone(w, fields, o, k), output, bubble)
    ensures bubble.Some? ==> AtField(FieldsDone(w, fields, o, k + 1), output, bubble)
    ensures bubble.None? ==> output.Some?
    ensures bubble.None? ==> AtField(FieldsDone(w, fields, o, k + 1),
                                     Written(fields[k], output, One(w, fields[k].completer, FieldSlot(w, fields[k], o)).result),
                                     Nulled(fields[k], One(w, fields[k].completer, FieldSlot(w, fields[k], o)).result))
  {
  }

  /** How far the write-back has got: the first `j` live objects and all nulled ones are a field further. */
  ghost predicate ScatteredTo(w: World, fields: seq<Field>, k: nat, objs: seq<Slot>, state: FieldCompletion, live: seq<nat>, j: nat)
    requires k < |fields|
    reads state
  {
    && |state.outputs| == |state.bubble| == |objs| && j <= |live|
    && (forall m :: 0 <= m < |live| ==> live[m] < |objs|)
    && (forall m :: 0 <= m < j ==> Stands(w, fields, objs, state, live[m], k + 1))
    && (forall m :: j <= m < |live| ==> Stands(w, fields, objs, state, live[m], k) && state.IsLive(live[m]))
    && (forall i :: 0 <= i < |objs| && i !in live ==> Stands(w, fields, objs, state, i, k + 1))
  }

  /** The live objects' places in rising order, each with the field's value on its object. */
  ghost predicate LiveSlots(w: World, f: Field, objs: seq<Slot>, live: seq<nat>, batch: seq<Slot>)
  {
    && |live| == |batch| && (forall a, b :: 0 <= a < b < |live| ==> live[a] < live[b])
    && forall j :: 0 <= j < |live| ==> live[j] < |objs| && batch[j] == FieldSlot(w, f, objs[live[j]])
  }

  lemma ScatterStart(w: World, fields: seq<Field>, k: nat, objs: seq<Slot>, state: FieldCompletion, live: seq<nat>, batch: seq<Slot>)
    requires k < |fields| && AllStand(w, fields, objs, state, k) && LiveBatch(w, fields[k], objs, |objs|, state, live, batch)
    ensures ScatteredTo(w, fields, k, objs, state, live, 0) && LiveSlots(w, fields[k], objs, live, batch)
  {
    forall i | 0 <= i < |objs| && i !in live
      ensures Stands(w, fields, objs, state, i, k + 1)
    {
      assert Stands(w, fields, objs, state, i, k);
      FieldAdvances(w, fields, objs[i], k, state.outputs[i], state.bubble[i]);
    }
    forall m | 0 <= m < |live| ensures Stands(w, fields, objs, state, live[m], k) {}
  }

  /** Writes one live object's value back. */
  method ScatterOne(ctx: Context, w: World, fields: seq<Field>, k: nat, objs: seq<Slot>, state: FieldCompletion, live: seq<nat>, j: nat,
                    ghost batch: seq<Slot>, completed: Completed)
    requires k < |fields| && ScatteredTo(w, fields, k, objs, state, live, j) && j < |live|
    requires LiveSlots(w, fields[k], objs, live, batch) && completed == One(w, fields[k].completer, batch[j]).result
    modifies ctx, state
    ensures ScatteredTo(w, fields, k, objs, state, live, j + 1)
    ensures Recorded(ctx) == old(Recorded(ctx)) + CaughtHere(fields[k].completer, completed)
  {
    FieldAdvances(w, fields, objs[live[j]], k, state.outputs[live[j]], state.bubble[live[j]]);
    assert Stands(w, fields, objs, state, live[j], k);
    WriteValue(ctx, fields[k], state, live[j], completed);
    assert Stands(w, fields, objs, state, live[j], k + 1);
    forall m | 0 <= m < |live| && m != j ensures live[m] != live[j] {}
    forall i | 0 <= i < |objs| && i != live[j]
      ensures state.outputs[i] == old(state.outputs)[i] && state.bubble[i] == old(state.bubble)[i]
    {
    }
  }

  method Scatter(ctx: Context, w: World, fields: seq<Field>, k: nat, objs: seq<Slot>, state: FieldCompletion, live: seq<nat>,
                 ghost batch: seq<Slot>, completed: seq<Completed>)
    requires k < |fields| && AllStand(w, fields, objs, state, k) && LiveBatch(w, fields[k], objs, |objs|, state, live, batch)
    requires Pointwise(w, fields[k].completer, batch, completed)
    modifies ctx, state
    ensures AllStand(w, fields, objs, state, k + 1)
    ensures Recorded(ctx) == old(Recorded(ctx)) + BatchCaught(w, fields[k].completer, batch)
  {
    ScatterStart(w, fields, k, objs, state, live, batch);
    ScatterLive(ctx, w, fields, k, objs, state, live, batch, completed);
    ScatterEnd(w, fields, k, k + 1, objs, state, live);
  }

  method ScatterLive(ctx: Context, w: World, fields: seq<Field>, k: nat, objs: seq<Slot>, state: FieldCompletion, live: seq<nat>,
                     ghost batch: seq<Slot>, completed: seq<Completed>)
    requires k < |fields| && ScatteredTo(w, fields, k, objs, state, live, 0) && LiveSlots(w, fields[k], objs, live, batch)
    requires Pointwise(w, fields[k].completer, batch, completed)
    modifies ctx, state
    ensures ScatteredTo(w, fields, k, objs, state, live, |live|)
    ensures Recorded(ctx) == old(Recorded(ctx)) + BatchCaught(w, fields[k].completer, batch)
  {
    ghost var before := Recorded(ctx);
    for j := 0 to |completed|
      invariant ScatteredTo(w, fields, k, objs, state, live, j)
      invariant Recorded(ctx) == before + BatchCaught(w, fields[k].completer, batch[..j])
    {
      ScatterOne(ctx, w, fields, k, objs, state, live, j, batch, completed[j]);
      MoreCaught(w, fields[k].completer, batch, j, completed[j], before);
    }
    assert batch[..|batch|] == batch;
  }

  lemma MoreCaught(w: World, c: Completer, batch: seq<Slot>, j: nat, completed: Completed, before: multiset<Error>)
    requires j < |batch| && completed == One(w, c, batch[j]).result
    ensures before + BatchCaught(w, c, batch[..j + 1]) == before + BatchCaught(w, c, batch[..j]) + CaughtHere(c, completed)
  {
    CaughtNext(w, c, batch, j);
  }

  lemma ScatterEnd(w: World, fields: seq<Field>, k: nat, next: nat, objs: seq<Slot>, state: FieldCompletion, live: seq<nat>)
    requires k < |fields| && next == k + 1 && ScatteredTo(w, fields, k, objs, state, live, |live|)
    ensures AllStand(w, fields, objs, state, next)
  {
    forall i | 0 <= i < |objs|
      ensures Stands(w, fields, objs, state, i, next)
    {
      if i in live {
        var m :| 0 <= m < |live| && live[m] == i;
      }
    }
  }

  // ----- objects and abstract values: which bucket each value joins -----

  /** Every value of the batch opens the same object plan. */
  ghost predicate AllEnter(w: World, c: Completer, fields: seq<Field>, batch: seq<Slot>)
    requires c.Object? || c.Abstract?
  {
    forall k :: 0 <= k < |batch| ==> EnterObject(w, c, batch[k]) == Enter(fields)
  }

  lemma {:induction false} EnteredErrors(w: World, c: Completer, fields: seq<Field>, batch: seq<Slot>)
    requires (c.Object? || c.Abstract?) && AllEnter(w, c, fields, batch)
    ensures BatchErrors(w, c, batch) == BucketErrors(w, fields, batch, |fields|)
    decreases |batch|
  {
    if batch != [] {
      EnteredErrors(w, c, fields, batch[..|batch| - 1]);
    }
  }

  /** The values taken so far, each with its place in the batch; the results of the others are settled. */
  ghost predicate Kept(w: World, c: Completer, fields: seq<Field>, batch: seq<Slot>, n: nat,
                       results: seq<Completed>, kept: seq<Slot>, origin: seq<nat>)
    requires (c.Object? || c.Abstract?) && n <= |batch|
  {
    && |results| == |batch| && Gathered(batch, n, kept, origin) && AllEnter(w, c, fields, kept)
    && BatchErrors(w, c, kept) == BatchErrors(w, c, batch[..n])
    && SettledApart(w, c, batch, n, results, origin)
  }

  /** The values not taken have their results. */
  ghost predicate SettledApart(w: World, c: Completer, batch: seq<Slot>, n: nat, results: seq<Completed>, origin: seq<nat>)
    requires n <= |batch| == |results|
  {
    forall i :: 0 <= i < n ==> i in origin || results[i] == One(w, c, batch[i]).result
  }

  ghost predicate Gathered(batch: seq<Slot>, n: nat, kept: seq<Slot>, origin: seq<nat>)
    requires n <= |batch|
  {
    |kept| == |origin| && forall k :: 0 <= k < |kept| ==> origin[k] < n && kept[k] == batch[origin[k]]
  }

  lemma KeptEnters(w: World, c: Completer, fields: seq<Field>, batch: seq<Slot>, n: nat, results: seq<Completed>, kept: seq<Slot>, origin: seq<nat>)
    requires (c.Object? || c.Abstract?) && n < |batch| && Kept(w, c, fields, batch, n, results, kept, origin)
    requires EnterObject(w, c, batch[n]) == Enter(fields)
    ensures Kept(w, c, fields, batch, n + 1, results, kept + [batch[n]], origin + [n])
  {
    BatchNext(w, c, batch, n);
    BatchAppend(w, c, kept, batch[n]);
    OneMoreGathered(batch, n, kept, origin);
    TakenApart(w, c, batch, n, results, origin);
  }

  lemma OneMoreGathered(batch: seq<Slot>, n: nat, kept: seq<Slot>, origin: seq<nat>)
    requires n < |batch| && Gathered(batch, n, kept, origin)
    ensures Gathered(batch, n + 1, kept + [batch[n]], origin + [n])
  {
  }

  lemma TakenApart(w: World, c: Completer, batch: seq<Slot>, n: nat, results: seq<Completed>, origin: seq<nat>)
    requires n < |batch| == |results| && SettledApart(w, c, batch, n, results, origin)
    ensures SettledApart(w, c, batch, n + 1, results, origin + [n])
  {
    forall i | 0 <= i < n + 1 && i !in origin + [n] ensures results[i] == One(w, c, batch[i]).result {
      assert (origin + [n])[|origin|] == n;
    }
  }

  lemma KeptSettles(w: World, c: Completer, fields: seq<Field>, batch: seq<Slot>, n: nat, results: seq<Completed>, kept: seq<Slot>, origin: seq<nat>)
    requires (c.Object? || c.Abstract?) && n < |batch| && Kept(w, c, fields, batch, n, results, kept, origin)
    requires EnterObject(w, c, batch[n]).Settled?
    ensures Kept(w, c, fields, batch, n + 1, results[n := EnterObject(w, c, batch[n]).result], kept, origin)
  {
    BatchNext(w, c, batch, n);
    SettlesApart(w, c, batch, n, results, origin, EnterObject(w, c, batch[n]).result);
  }

  lemma SettlesApart(w: World, c: Completer, batch: seq<Slot>, n: nat, results: seq<Completed>, origin: seq<nat>, r: Completed)
    requires n < |batch| == |results| && SettledApart(w, c, batch, n, results, origin) && r == One(w, c, batch[n]).result
    ensures SettledApart(w, c, batch, n + 1, results[n := r], origin)
  {
  }

  lemma NothingKept(w: World, c: Completer, fields: seq<Field>, batch: seq<Slot>, results: seq<Completed>)
    requires (c.Object? || c.Abstract?) && |results| == |batch|
    ensures Kept(w, c, fields, batch, 0, results, [], [])
  {
    assert batch[..0] == [];
  }

  method KeepObjects(w: World, c: Completer, batch: seq<Slot>) returns (results: seq<Completed>, kept: seq<Slot>, origin: seq<nat>)
    requires c.Object?
    ensures Kept(w, c, c.fields, batch, |batch|, results, kept, origin)
  {
    results, kept, origin := seq(|batch|, _ => Value(DNull)), [], [];
    NothingKept(w, c, c.fields, batch, results);
    for i := 0 to |batch|
      invariant Kept(w, c, c.fields, batch, i, results, kept, origin)
    {
      results, kept, origin := KeepOne(w, c, batch, i, results, kept, origin);
    }
  }

  /** A value that opens the plan joins the bucket; any other's result is settled. */
  method KeepOne(w: World, c: Completer, batch: seq<Slot>, i: nat, results: seq<Completed>, kept: seq<Slot>, origin: seq<nat>)
    returns (results': seq<Completed>, kept': seq<Slot>, origin': seq<nat>)
    requires c.Object? && i < |batch| && Kept(w, c, c.fields, batch, i, results, kept, origin)
    ensures Kept(w, c, c.fields, batch, i + 1, results', kept', origin')
  {
    match EnterObject(w, c, batch[i])
    case Settled(r) =>
      KeptSettles(w, c, c.fields, batch, i, results, kept, origin);
      results', kept', origin' := results[i := r], kept, origin;
    case Enter(fields) =>
      KeptEnters(w, c, c.fields, batch, i, results, kept, origin);
      results', kept', origin' := results, kept + [batch[i]], origin + [i];
  }

  /** Writes a bucket's results back to where its values came from. */
  method ScatterChildren(ghost w: World, ghost c: Completer, ghost batch: seq<Slot>, results: seq<Completed>, origin: seq<nat>, child: seq<Completed>)
    returns (results': seq<Completed>)
    requires |results| == |batch| && |child| == |origin|
    requires forall k :: 0 <= k < |origin| ==> origin[k] < |batch| && child[k] == One(w, c, batch[origin[k]]).result
    ensures |results'| == |batch|
    ensures forall i :: 0 <= i < |batch| ==> results'[i] == if i in origin then One(w, c, batch[i]).result else results[i]
  {
    results' := results;
    for k := 0 to |child|
      invariant |results'| == |batch|
      invariant forall i :: 0 <= i < |batch| ==> results'[i] == if i in origin[..k] then One(w, c, batch[i]).result else results[i]
    {
      assert origin[..k + 1] == origin[..k] + [origin[k]];
      results' := results'[origin[k] := child[k]];
    }
    assert origin[..|child|] == origin;
  }

  // ----- abstract values grouped by concrete type -----

  datatype Group = Group(typeName: string, slots: seq<Slot>, origin: seq<nat>)

  ghost function GroupErrors(w: World, c: Completer, groups: seq<Group>): multiset<Error>
    decreases |groups|
  {
    if groups == [] then multiset{} else GroupErrors(w, c, groups[..|groups| - 1]) + BatchErrors(w, c, groups[|groups| - 1].slots)
  }

  lemma GroupNext(w: World, c: Completer, groups: seq<Group>, i: nat)
    requires i < |groups|
    ensures GroupErrors(w, c, groups[..i + 1]) == GroupErrors(w, c, groups[..i]) + BatchErrors(w, c, groups[i].slots)
  {
    assert groups[..i + 1][..i] == groups[..i];
  }

  lemma GroupLast(w: World, c: Completer, groups: seq<Group>, init: seq<Group>, last: Group)
    requires groups == init + [last]
    ensures GroupErrors(w, c, groups) == GroupErrors(w, c, init) + BatchErrors(w, c, last.slots)
  {
    assert groups[..|groups| - 1] == init;
  }

  lemma {:induction false} GroupGrows(w: World, c: Completer, groups: seq<Group>, g: nat, grown: Group, s: Slot)
    requires g < |groups| && grown.slots == groups[g].slots + [s]
    ensures GroupErrors(w, c, groups[g := grown]) == GroupErrors(w, c, groups) + One(w, c, s).errors
    decreases |groups|
  {
    var init, last := groups[..|groups| - 1], groups[|groups| - 1];
    GroupLast(w, c, groups, init, last);
    if g == |groups| - 1 {
      GroupLast(w, c, groups[g := grown], init, grown);
      BatchAppend(w, c, last.slots, s);
    } else {
      GroupLast(w, c, groups[g := grown], init[g := grown], last);
      GroupGrows(w, c, init, g, grown, s);
    }
  }

  ghost predicate InGroups(groups: seq<Group>, i: nat)
  {
    exists g :: 0 <= g < |groups| && i in groups[g].origin
  }

  function CaseFields(c: Completer, typeName: string): (fields: seq<Field>)
    requires c.Abstract? && FindCase(c.cases, typeName) < |c.cases|
    ensures c decreases to fields
  {
    c.cases[FindCase(c.cases, typeName)].fields
  }

  ghost predicate GroupFits(w: World, c: Completer, batch: seq<Slot>, n: nat, g: Group)
    requires c.Abstract? && n <= |batch|
  {
    FindCase(c.cases, g.typeName) < |c.cases| && Gathered(batch, n, g.slots, g.origin) && AllEnter(w, c, CaseFields(c, g.typeName), g.slots)
  }

  ghost predicate Grouped(w: World, c: Completer, batch: seq<Slot>, n: nat, results: seq<Completed>, groups: seq<Group>)
    requires c.Abstract? && n <= |batch|
  {
    && |results| == |batch| && (forall g :: 0 <= g < |groups| ==> GroupFits(w, c, batch, n, groups[g]))
    && GroupErrors(w, c, groups) == BatchErrors(w, c, batch[..n])
    && forall i :: 0 <= i < n ==> InGroups(groups, i) || results[i] == One(w, c, batch[i]).result
  }

  ghost predicate Joined(groups: seq<Group>, groups': seq<Group>, at: nat, typeName: string, s: Slot, i: nat)
  {
    && at <= |groups|
    && if at == |groups| then groups' == groups + [Group(typeName, [s], [i])]
       else groups[at].typeName == typeName && groups' == groups[at := Group(typeName, groups[at].slots + [s], groups[at].origin + [i])]
  }

  /** `groups.setdefault`: appends to the group of that type, opening it at the end when it is new. */
  method JoinGroup(groups: seq<Group>, typeName: string, s: Slot, i: nat) returns (groups': seq<Group>, ghost at: nat)
    ensures Joined(groups, groups', at, typeName, s, i)
  {
    for g := 0 to |groups| {
      if groups[g].typeName == typeName {
        at := g;
        groups' := groups[g := Group(typeName, groups[g].slots + [s], groups[g].origin + [i])];
        return;
      }
    }
    at, groups' := |groups|, groups + [Group(typeName, [s], [i])];
  }

  lemma GroupedSettles(w: World, c: Completer, batch: seq<Slot>, n: nat, results: seq<Completed>, groups: seq<Group>)
    requires c.Abstract? && n < |batch| && Grouped(w, c, batch, n, results, groups) && EnterObject(w, c, batch[n]).Settled?
    ensures Grouped(w, c, batch, n + 1, results[n := EnterObject(w, c, batch[n]).result], groups)
  {
    BatchNext(w, c, batch, n);
    forall g | 0 <= g < |groups| ensures GroupFits(w, c, batch, n + 1, groups[g]) { assert GroupFits(w, c, batch, n, groups[g]); }
  }

  lemma JoinedFit(w: World, c: Completer, batch: seq<Slot>, n: nat, groups: seq<Group>, groups': seq<Group>, at: nat, typeName: string)
    requires c.Abstract? && n < |batch| && forall g :: 0 <= g < |groups| ==> GroupFits(w, c, batch, n, groups[g])
    requires FindCase(c.cases, typeName) < |c.cases| && EnterObject(w, c, batch[n]) == Enter(CaseFields(c, typeName))
    requires Joined(groups, groups', at, typeName, batch[n], n)
    ensures forall g :: 0 <= g < |groups'| ==> GroupFits(w, c, batch, n + 1, groups'[g])
  {
    forall g | 0 <= g < |groups'|
      ensures GroupFits(w, c, batch, n + 1, groups'[g])
    {
      if g < |groups| { assert GroupFits(w, c, batch, n, groups[g]); }
    }
  }

  lemma JoinedCovers(groups: seq<Group>, groups': seq<Group>, at: nat, typeName: string, s: Slot, n: nat)
    requires Joined(groups, groups', at, typeName, s, n)
    ensures InGroups(groups', n) && forall i :: InGroups(groups, i) ==> InGroups(groups', i)
  {
    assert groups'[at].origin[|groups'[at].origin| - 1] == n;
    forall i | InGroups(groups, i)
      ensures InGroups(groups', i)
    {
      var g :| 0 <= g < |groups| && i in groups[g].origin;
      assert i in groups'[g].origin;
    }
  }

  lemma GroupedJoins(w: World, c: Completer, batch: seq<Slot>, n: nat, results: seq<Completed>, groups: seq<Group>,
                     typeName: string, groups': seq<Group>, at: nat)
    requires c.Abstract? && n < |batch| && Grouped(w, c, batch, n, results, groups)
    requires FindCase(c.cases, typeName) < |c.cases| && EnterObject(w, c, batch[n]) == Enter(CaseFields(c, typeName))
    requires Joined(groups, groups', at, typeName, batch[n], n)
    ensures Grouped(w, c, batch, n + 1, results, groups')
  {
    BatchNext(w, c, batch, n);
    JoinedErrors(w, c, groups, groups', at, batch[n]);
    JoinedFit(w, c, batch, n, groups, groups', at, typeName);
    JoinedCovers(groups, groups', at, typeName, batch[n], n);
  }

  lemma JoinedErrors(w: World, c: Completer, groups: seq<Group>, groups': seq<Group>, at: nat, s: Slot)
    requires at <= |groups| && |groups'| == if at < |groups| then |groups| else |groups| + 1
    requires at < |groups| ==> groups' == groups[at := groups'[at]] && groups'[at].slots == groups[at].slots + [s]
    requires at == |groups| ==> groups' == groups + [groups'[at]] && groups'[at].slots == [s]
    ensures GroupErrors(w, c, groups') == GroupErrors(w, c, groups) + One(w, c, s).errors
  {
    if at < |groups| {
      GroupGrows(w, c, groups, at, groups'[at], s);
    } else {
      assert groups'[..|groups|] == groups;
      assert [] + [s] == [s];
      BatchAppend(w, c, [], s);
    }
  }

  method GroupByType(w: World, c: Completer, batch: seq<Slot>) returns (results: seq<Completed>, groups: seq<Group>)
    requires c.Abstract?
    ensures Grouped(w, c, batch, |batch|, results, groups)
  {
    results, groups := seq(|batch|, _ => Value(DNull)), [];
    assert batch[..0] == [];
    for i := 0 to |batch|
      invariant Grouped(w, c, batch, i, results, groups)
    {
      match EnterObject(w, c, batch[i])
      case Settled(r) =>
        GroupedSettles(w, c, batch, i, results, groups);
        results := results[i := r];
      case Enter(fields) =>
        var typeName := w.resolveType(c.abstractType, batch[i].value).typeName;
        var joined;
        ghost var at;
        joined, at := JoinGroup(groups, typeName, batch[i], i);
        GroupedJoins(w, c, batch, i, results, groups, typeName, joined, at);
        groups := joined;
    }
  }

  // ----- the whole engine -----

  /** `complete_values`: every value of the batch gets the result it would have alone, and the errors recorded are
      those it would record alone, all together. */
  method CompleteValues(ctx: Context, w: World, c: Completer, batch: seq<Slot>) returns (results: seq<Completed>)
    modifies ctx
    ensures Pointwise(w, c, batch, results)
    ensures Recorded(ctx) == old(Recorded(ctx)) + BatchErrors(w, c, batch)
    decreases c, 3
  {
    match c
    case Leaf(_) => results := CompleteLeafValues(w, c, batch);
    case NonNull(inner) =>
      var completed := CompleteValues(ctx, w, inner, batch);
      results := EnforceAll(w, c, batch, completed);
    case List(item) =>
      var items, spans := Flatten(w, item, batch);
      var completed := CompleteValues(ctx, w, item, items);
      results := CollectLists(ctx, w, c, batch, items, completed, spans);
      BatchOfListsSplits(w, c, batch);
    case Object(_, _) => results := RunObjectBucket(ctx, w, c, batch);
    case Abstract(_, _) => results := DispatchAbstract(ctx, w, c, batch);
  }

  method RunObjectBucket(ctx: Context, w: World, c: Completer, batch: seq<Slot>) returns (results: seq<Completed>)
    requires c.Object?
    modifies ctx
    ensures Pointwise(w, c, batch, results)
    ensures Recorded(ctx) == old(Recorded(ctx)) + BatchErrors(w, c, batch)
    decreases c, 2
  {
    var settled, kept, origin := KeepObjects(w, c, batch);
    assert batch[..|batch|] == batch;
    EnteredErrors(w, c, c.fields, kept);
    var child := ExecuteObjectPlan(ctx, w, c.fields, kept);
    results := ScatterChildren(w, c, batch, settled, origin, child);
  }

  method DispatchAbstract(ctx: Context, w: World, c: Completer, batch: seq<Slot>) returns (results: seq<Completed>)
    requires c.Abstract?
    modifies ctx
    ensures Pointwise(w, c, batch, results)
    ensures Recorded(ctx) == old(Recorded(ctx)) + BatchErrors(w, c, batch)
    decreases c, 2
  {
    var groups;
    results, groups := GroupByType(w, c, batch);
    assert batch[..|batch|] == batch;
    for g := 0 to |groups|
      invariant |results| == |batch|
      invariant forall i :: 0 <= i < |batch| ==> InGroups(groups[g..], i) || results[i] == One(w, c, batch[i]).result
      invariant Recorded(ctx) == old(Recorded(ctx)) + GroupErrors(w, c, groups[..g])
    {
      GroupNext(w, c, groups, g);
      results := CompleteGroup(ctx, w, c, batch, groups[g], results);
      OneGroupFewer(groups, g);
    }
    assert groups[..|groups|] == groups;
  }

  lemma OneGroupFewer(groups: seq<Group>, g: nat)
    requires g < |groups|
    ensures forall i :: InGroups(groups[g..], i) && i !in groups[g].origin ==> InGroups(groups[g + 1..], i)
  {
    forall i | InGroups(groups[g..], i) && i !in groups[g].origin
      ensures InGroups(groups[g + 1..], i)
    {
      var h :| 0 <= h < |groups[g..]| && i in groups[g..][h].origin;
      assert groups[g + 1..][h - 1] == groups[g..][h];
    }
  }

  method CompleteGroup(ctx: Context, w: World, c: Completer, batch: seq<Slot>, g: Group, results: seq<Completed>) returns (results': seq<Completed>)
    requires c.Abstract? && GroupFits(w, c, batch, |batch|, g) && |results| == |batch|
    modifies ctx
    ensures |results'| == |batch|
    ensures forall i :: 0 <= i < |batch| ==> results'[i] == if i in g.origin then One(w, c, batch[i]).result else results[i]
    ensures Recorded(ctx) == old(Recorded(ctx)) + BatchErrors(w, c, g.slots)
    decreases c, 1
  {
    EnteredErrors(w, c, CaseFields(c, g.typeName), g.slots);
    var child := ExecuteObjectPlan(ctx, w, CaseFields(c, g.typeName), g.slots);
    results' := ScatterChildren(w, c, batch, results, g.origin, child);
  }

  /** `execute_object_plan`: the fields of a whole bucket, one after another. */
  method ExecuteObjectPlan(ctx: Context, w: World, fields: seq<Field>, objs: seq<Slot>) returns (results: seq<Completed>)
    modifies ctx
    ensures |results| == |objs|
    ensures forall i :: 0 <= i < |objs| ==> results[i] == Assemble(FieldsDone(w, fields, objs[i], |fields|)).result
    ensures Recorded(ctx) == old(Recorded(ctx)) + BucketErrors(w, fields, objs, |fields|)
    decreases fields, 3
  {
    var state := StartBucket(w, fields, objs);
    ghost var start := Recorded(ctx);
    NothingYet(w, fields, objs);
    for k := 0 to |fields|
      invariant fresh(state) && AllStand(w, fields, objs, state, k)
      invariant Recorded(ctx) == start + BucketErrors(w, fields, objs, k)
    {
      CompleteField(ctx, w, fields, k, objs, state, start);
    }
    results := AssembleAll(w, fields, objs, state);
  }

  method StartBucket(ghost w: World, ghost fields: seq<Field>, objs: seq<Slot>) returns (state: FieldCompletion)
    ensures fresh(state) && AllStand(w, fields, objs, state, 0)
  {
    state := new FieldCompletion(|objs|);
    StartStands(w, fields, objs, state, 0);
  }

  lemma StartStands(w: World, fields: seq<Field>, objs: seq<Slot>, state: FieldCompletion, k: nat)
    requires k == 0 && state.outputs == seq(|objs|, _ => Some([])) && state.bubble == seq(|objs|, _ => None)
    ensures AllStand(w, fields, objs, state, k)
  {
  }

  /** `assemble`: each object's output, or the error that nulled it. */
  method AssembleAll(ghost w: World, ghost fields: seq<Field>, objs: seq<Slot>, state: FieldCompletion) returns (results: seq<Completed>)
    requires AllStand(w, fields, objs, state, |fields|)
    ensures |results| == |objs|
    ensures forall i :: 0 <= i < |objs| ==> results[i] == Assemble(FieldsDone(w, fields, objs[i], |fields|)).result
  {
    results := [];
    for i := 0 to |objs|
      invariant |results| == i
      invariant forall j :: 0 <= j < i ==> results[j] == Assemble(FieldsDone(w, fields, objs[j], |fields|)).result
    {
      assert Stands(w, fields, objs, state, i, |fields|);
      results := results + [if state.bubble[i].Some? then Bubble(state.bubble[i].value) else Value(DObject(state.outputs[i].value))];
    }
  }

  lemma FieldErrorsAdd(start: multiset<Error>, before: multiset<Error>, batch: multiset<Error>, caught: multiset<Error>, k: multiset<Error>, next: multiset<Error>)
    requires before == start + k && next == k + (batch + caught)
    ensures before + batch + caught == start + next
  {
  }

  /** One field over the bucket's live objects. */
  method CompleteField(ctx: Context, w: World, fields: seq<Field>, k: nat, objs: seq<Slot>, state: FieldCompletion, ghost start: multiset<Error>)
    requires k < |fields| && AllStand(w, fields, objs, state, k)
    requires Recorded(ctx) == start + BucketErrors(w, fields, objs, k)
    modifies ctx, state
    ensures AllStand(w, fields, objs, state, k + 1)
    ensures Recorded(ctx) == start + BucketErrors(w, fields, objs, k + 1)
    decreases fields, 2
  {
    var live, batch := SelectLive(w, fields, k, objs, state);
    BucketAdds(w, fields, objs, k);
    FieldErrorsAdd(start, Recorded(ctx), BatchErrors(w, fields[k].completer, batch), BatchCaught(w, fields[k].completer, batch),
                   BucketErrors(w, fields, objs, k), BucketErrors(w, fields, objs, k + 1));
    if live == [] {
      ScatterStart(w, fields, k, objs, state, live, batch);
      ScatterEnd(w, fields, k, k + 1, objs, state, live);
      return;
    }
    var completed := CompleteValues(ctx, w, fields[k].completer, batch);
    Scatter(ctx, w, fields, k, objs, state, live, batch, completed);
  }

  lemma OneObject(w: World, fields: seq<Field>, o: Slot)
    ensures BucketErrors(w, fields, [o], |fields|) == FieldsDone(w, fields, o, |fields|).errors
  {
    assert [o][..0] == [];
    assert BucketErrors(w, fields, [], |fields|) == multiset{};
  }

  /** An error that nulls the root is recorded and the data is null. */
  method RootOutput(ctx: Context, ghost st: FieldState, result: Completed) returns (data: Data)
    requires result == Assemble(st).result && Recorded(ctx) == st.errors
    modifies ctx
    ensures Response(data, Recorded(ctx)) == Respond(Assemble(st))
  {
    match result
    case Value(d) => data := d;
    case Bubble(e) => ctx.Append(e); data := DNull;
  }

  lemma RootRefinesSpec(w: World, fields: seq<Field>, o: Slot)
    ensures var r, spec := Respond(Assemble(FieldsDone(w, fields, o, |fields|))), Respond(SpecFields(w, fields, o, 0));
            r.data == spec.data && spec.errors <= r.errors
  {
    FieldsRefineSpec(w, fields, o, 0, FieldsDone(w, fields, o, |fields|));
    FieldsRefined(FieldsDone(w, fields, o, 0), FieldsDone(w, fields, o, |fields|), SpecFields(w, fields, o, 0));
  }

  /** A whole operation, run as the root's bucket of one: the data is the specification's, every error the
      specification records is recorded, and nulls and errors correspond. */
  method ExecuteOperation(w: World, fields: seq<Field>, root: Raw) returns (data: Data, errors: seq<Error>)
    ensures var spec := Respond(SpecFields(w, fields, Slot(root, []), 0)); data == spec.data && spec.errors <= multiset(errors)
    ensures Passes(data, [], multiset(errors))
    ensures data.DNull? <==> exists e :: FieldsReach(w, fields, Slot(root, []), |fields|, e)
    ensures !data.DNull? ==> data.DObject? && |data.entries| == |fields| && EntriesExplained(w, fields, Slot(root, []), data.entries)
    ensures forall e :: e in errors <==> FieldsReach(w, fields, Slot(root, []), |fields|, e) || FieldsKeep(w, fields, Slot(root, []), |fields|, e)
    ensures FieldsNamed(fields) ==> forall e :: multiset(errors)[e] <= 1
  {
    var ctx := new Context();
    var results := ExecuteObjectPlan(ctx, w, fields, [Slot(root, [])]);
    OneObject(w, fields, Slot(root, []));
    data := RootOutput(ctx, FieldsDone(w, fields, Slot(root, []), |fields|), results[0]);
    errors := ctx.errors;
    RootRefinesSpec(w, fields, Slot(root, []));
    ResponseCorresponds(w, fields, root);
  }
}
