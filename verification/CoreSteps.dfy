/** The batch steps against their per-entry meaning: coalesce and scatter, explode and regroup, one batch a type. */
module CoreSteps {
  import opened Wrappers
  import opened Constraints

  // ----- LoadStep: one call over the distinct keys -----

  /** A dictionary key: Python hashes and compares all numbers as numbers; lists and dicts cannot be hashed. */
  datatype HashKey = HNull | HNumber(x: real) | HText(s: string) | Unhashable

  function HashOf(v: Value): HashKey
  {
    match v
    case VNull => HNull
    case VStr(s) => HText(s)
    case VList(_) => Unhashable
    case VDict(_) => Unhashable
    case _ => HNumber(AsReal(v))
  }

  predicate Hashable(v: Value)
  {
    !HashOf(v).Unhashable?
  }

  /** Hashable keys fall together exactly when Python's `==` holds of them. */
  lemma SameHashIsEqual(a: Value, b: Value)
    requires Hashable(a) && Hashable(b)
    ensures HashOf(a) == HashOf(b) <==> PyEq(a, b)
  {
  }

  /** What a batch callback does: raise for the whole batch, or return one result a key (if it keeps its contract). */
  datatype Loaded<R> = LoadRaised(message: string) | Results(results: seq<R>)

  datatype Entry<R> = Record(record: R) | Failed(message: string)

  /** The key sent for `key`: the first of the column that the dictionary cannot tell from it. */
  function Representative(keys: seq<Value>, key: Value): Value
  {
    if !Hashable(key) || keys == [] then key
    else if HashOf(keys[0]) == HashOf(key) then keys[0]
    else Representative(keys[1..], key)
  }

  lemma {:induction false} RepresentativeOfPrefix(keys: seq<Value>, key: Value, i: nat)
    requires i <= |keys|
    ensures Representative(keys, key) == if exists j :: 0 <= j < i && HashOf(keys[j]) == HashOf(key) then Representative(keys[..i], key)
                                         else Representative(keys[i..], key)
  {
    if i > 0 && Hashable(key) {
      assert keys[..i][1..] == keys[1..][..i - 1] && keys[1..][i - 1..] == keys[i..];
      RepresentativeOfPrefix(keys[1..], key, i - 1);
      if HashOf(keys[0]) != HashOf(key) {
        if j :| 0 <= j < i && HashOf(keys[j]) == HashOf(key) { assert keys[1..][j - 1] == keys[j]; }
        if j :| 0 <= j < i - 1 && HashOf(keys[1..][j]) == HashOf(key) { assert keys[j + 1] == keys[1..][j]; }
      }
    }
  }

  /** The batch sent: every entry's slot holds its representative, no two hashable keys alike. */
  ghost predicate Coalesced(keys: seq<Value>, n: nat, unique: seq<Value>, slots: seq<nat>)
    requires n <= |keys|
  {
    && |slots| == n
    && (forall i :: 0 <= i < n ==> slots[i] < |unique| && unique[slots[i]] == Representative(keys, keys[i]))
    && (forall a, b :: 0 <= a < b < |unique| && Hashable(unique[a]) ==> HashOf(unique[a]) != HashOf(unique[b]))
    && (forall a: nat :: a < |unique| ==> a in slots)
  }

  /** The dictionary: each hashable key sent, at its slot. */
  ghost predicate SlotsOf(keys: seq<Value>, n: nat, unique: seq<Value>, slotForKey: map<HashKey, nat>)
    requires n <= |keys|
  {
    && (forall h :: h in slotForKey ==> slotForKey[h] < |unique| && HashOf(unique[slotForKey[h]]) == h && h != Unhashable)
    && (forall a :: 0 <= a < |unique| && Hashable(unique[a]) ==> HashOf(unique[a]) in slotForKey)
    && (forall h :: h in slotForKey <==> h != Unhashable && SeenBefore(keys, n, h))
  }

  ghost predicate SeenBefore(keys: seq<Value>, n: nat, h: HashKey)
    requires n <= |keys|
  {
    exists i :: 0 <= i < n && HashOf(keys[i]) == h
  }

  lemma OneMoreSeen(keys: seq<Value>, i: nat)
    requires i < |keys|
    ensures forall h :: SeenBefore(keys, i + 1, h) <==> SeenBefore(keys, i, h) || h == HashOf(keys[i])
  {
    forall h | SeenBefore(keys, i, h) ensures SeenBefore(keys, i + 1, h) { var j :| 0 <= j < i && HashOf(keys[j]) == h; }
  }

  lemma SameDictionary(keys: seq<Value>, i: nat, unique: seq<Value>, slotForKey: map<HashKey, nat>)
    requires i < |keys| && SlotsOf(keys, i, unique, slotForKey) && HashOf(keys[i]) in slotForKey
    ensures SlotsOf(keys, i + 1, unique, slotForKey)
  {
    OneMoreSeen(keys, i);
  }

  lemma LargerDictionary(keys: seq<Value>, i: nat, unique: seq<Value>, slotForKey: map<HashKey, nat>)
    requires i < |keys| && SlotsOf(keys, i, unique, slotForKey) && HashOf(keys[i]) !in slotForKey && Hashable(keys[i])
    ensures SlotsOf(keys, i + 1, unique + [keys[i]], slotForKey[HashOf(keys[i]) := |unique|])
  {
    OneMoreSeen(keys, i);
  }

  lemma NotInDictionary(keys: seq<Value>, i: nat, unique: seq<Value>, slotForKey: map<HashKey, nat>)
    requires i < |keys| && SlotsOf(keys, i, unique, slotForKey) && !Hashable(keys[i])
    ensures SlotsOf(keys, i + 1, unique + [keys[i]], slotForKey)
  {
    OneMoreSeen(keys, i);
  }

  /** A key's first occurrence is its own representative, and nothing sent before hashes like it. */
  lemma FirstOfItsHash(keys: seq<Value>, i: nat, unique: seq<Value>, slotForKey: map<HashKey, nat>)
    requires i < |keys| && SlotsOf(keys, i, unique, slotForKey) && (!Hashable(keys[i]) || HashOf(keys[i]) !in slotForKey)
    ensures Representative(keys, keys[i]) == keys[i]
    ensures Hashable(keys[i]) ==> forall a :: 0 <= a < |unique| ==> HashOf(unique[a]) != HashOf(keys[i])
  {
    if Hashable(keys[i]) {
      forall j | 0 <= j < i ensures HashOf(keys[j]) != HashOf(keys[i]) { assert SeenBefore(keys, i, HashOf(keys[j])); }
    }
    FirstIsItsOwn(keys, i);
  }

  lemma FirstIsItsOwn(keys: seq<Value>, i: nat)
    requires i < |keys| && (!Hashable(keys[i]) || forall j :: 0 <= j < i ==> HashOf(keys[j]) != HashOf(keys[i]))
    ensures Representative(keys, keys[i]) == keys[i]
  {
    if Hashable(keys[i]) {
      RepresentativeOfPrefix(keys, keys[i], i);
      assert keys[i..][0] == keys[i];
    }
  }

  lemma SameRepresentative(keys: seq<Value>, a: Value, b: Value)
    requires Hashable(a) && HashOf(a) == HashOf(b) && a in keys
    ensures Representative(keys, a) == Representative(keys, b)
  {
    if HashOf(keys[0]) != HashOf(a) {
      SameRepresentative(keys[1..], a, b);
    }
  }

  /** The gather loop of `LoadStep.execute`. */
  method Coalesce(keys: seq<Value>) returns (unique: seq<Value>, slots: seq<nat>)
    ensures Coalesced(keys, |keys|, unique, slots)
  {
    unique, slots := [], [];
    var slotForKey: map<HashKey, nat> := map[];
    for i := 0 to |keys|
      invariant Coalesced(keys, i, unique, slots) && SlotsOf(keys, i, unique, slotForKey)
    {
      unique, slots, slotForKey := CoalesceOne(keys, i, unique, slots, slotForKey);
    }
  }

  method CoalesceOne(keys: seq<Value>, i: nat, unique: seq<Value>, slots: seq<nat>, slotForKey: map<HashKey, nat>)
    returns (unique': seq<Value>, slots': seq<nat>, slotForKey': map<HashKey, nat>)
    requires i < |keys| && Coalesced(keys, i, unique, slots) && SlotsOf(keys, i, unique, slotForKey)
    ensures Coalesced(keys, i + 1, unique', slots') && SlotsOf(keys, i + 1, unique', slotForKey')
  {
    var key := keys[i];
    if Hashable(key) && HashOf(key) in slotForKey {
      var slot := slotForKey[HashOf(key)];
      SentBefore(keys, i, unique, slots, slot);
      SlotAppended(keys, i, unique, slots, slot);
      SameDictionary(keys, i, unique, slotForKey);
      return unique, slots + [slot], slotForKey;
    }
    FirstOfItsHash(keys, i, unique, slotForKey);
    Appended(keys, i, unique, slots, key);
    unique', slots' := unique + [key], slots + [|unique|];
    if Hashable(key) {
      LargerDictionary(keys, i, unique, slotForKey);
      slotForKey' := slotForKey[HashOf(key) := |unique|];
    } else {
      NotInDictionary(keys, i, unique, slotForKey);
      slotForKey' := slotForKey;
    }
  }

  lemma SentBefore(keys: seq<Value>, i: nat, unique: seq<Value>, slots: seq<nat>, slot: nat)
    requires i < |keys| && Coalesced(keys, i, unique, slots) && slot < |unique|
    requires Hashable(keys[i]) && HashOf(unique[slot]) == HashOf(keys[i])
    ensures unique[slot] == Representative(keys, keys[i])
  {
    assert slot in slots;
    var j :| 0 <= j < i && slots[j] == slot;
    RepresentativeHash(keys, keys[j]);
    SameRepresentative(keys, keys[j], keys[i]);
  }

  lemma SlotAppended(keys: seq<Value>, i: nat, unique: seq<Value>, slots: seq<nat>, slot: nat)
    requires i < |keys| && Coalesced(keys, i, unique, slots) && slot < |unique| && unique[slot] == Representative(keys, keys[i])
    ensures Coalesced(keys, i + 1, unique, slots + [slot])
  {
    var more := slots + [slot];
    forall j | 0 <= j < i + 1 ensures more[j] < |unique| && unique[more[j]] == Representative(keys, keys[j]) {}
    forall a: nat | a < |unique| ensures a in more { assert a in slots; }
  }

  lemma RepresentativeHash(keys: seq<Value>, key: Value)
    ensures HashOf(Representative(keys, key)) == HashOf(key)
  {
  }

  lemma Appended(keys: seq<Value>, i: nat, unique: seq<Value>, slots: seq<nat>, key: Value)
    requires i < |keys| && Coalesced(keys, i, unique, slots) && key == keys[i] && Representative(keys, key) == key
    requires Hashable(key) ==> forall a :: 0 <= a < |unique| ==> HashOf(unique[a]) != HashOf(key)
    ensures Coalesced(keys, i + 1, unique + [key], slots + [|unique|])
  {
    var more := slots + [|unique|];
    assert more[i] == |unique|;
    forall a: nat | a < |unique + [key]| ensures a in more { assert a < |unique| ==> a in slots; }
  }

  /** `LoadStep.execute`: one call; a raise becomes every entry's value, a result of the wrong length stops the run
      (None), otherwise entry `i` holds the result of the key sent for it. */
  method ExecuteLoad<R>(keys: seq<Value>, load: seq<Value> -> Loaded<R>) returns (column: Option<seq<Entry<R>>>, ghost sent: seq<Value>, ghost slots: seq<nat>)
    ensures Coalesced(keys, |keys|, sent, slots)
    ensures load(sent).LoadRaised? ==> column == Some(seq(|keys|, _ => Failed(load(sent).message)))
    ensures load(sent).Results? && |load(sent).results| != |sent| ==> column.None?
    ensures load(sent).Results? && |load(sent).results| == |sent| ==>
              column.Some? && |column.value| == |keys| && forall i :: 0 <= i < |keys| ==> column.value[i] == Record(load(sent).results[slots[i]])
  {
    var unique, entrySlot := Coalesce(keys);
    sent, slots := unique, entrySlot;
    match load(unique)
    case LoadRaised(m) => column := Some(seq(|keys|, _ => Failed(m)));
    case Results(results) =>
      if |results| != |unique| {
        column := None;
      } else {
        column := Some(seq(|keys|, i requires 0 <= i < |entrySlot| && entrySlot[i] < |results| => Record(results[entrySlot[i]])));
      }
  }

  /** The callback's contract: one result a key, each depending on that key alone. */
  ghost predicate LoadsEach<R(!new)>(load: seq<Value> -> Loaded<R>, one: Value -> R)
  {
    forall keys :: load(keys) == Results(seq(|keys|, i requires 0 <= i < |keys| => one(keys[i])))
  }

  /** Batching is per-entry loading exactly when the callback gives one result to keys Python cannot tell apart. */
  lemma LoadIsPerEntryIff<R(!new)>(keys: seq<Value>, load: seq<Value> -> Loaded<R>, one: Value -> R, sent: seq<Value>, slots: seq<nat>)
    requires LoadsEach(load, one) && Coalesced(keys, |keys|, sent, slots)
    ensures |load(sent).results| == |sent|
    ensures (forall i :: 0 <= i < |keys| ==> load(sent).results[slots[i]] == one(keys[i]))
       <==> (forall i, j :: 0 <= i < |keys| && 0 <= j < |keys| && Hashable(keys[i]) && PyEq(keys[i], keys[j]) && Hashable(keys[j]) ==> one(keys[i]) == one(keys[j]))
  {
    assert load(sent).results == seq(|sent|, i requires 0 <= i < |sent| => one(sent[i]));
    forall i | 0 <= i < |keys| ensures load(sent).results[slots[i]] == one(Representative(keys, keys[i])) {}
    forall i, j | 0 <= i < |keys| && 0 <= j < |keys| && Hashable(keys[i]) && Hashable(keys[j]) && PyEq(keys[i], keys[j])
      ensures Representative(keys, keys[i]) == Representative(keys, keys[j])
    {
      SameHashIsEqual(keys[i], keys[j]);
      SameRepresentative(keys, keys[i], keys[j]);
    }
    forall i | 0 <= i < |keys| && Hashable(keys[i])
      ensures Hashable(Representative(keys, keys[i])) && PyEq(keys[i], Representative(keys, keys[i])) && Representative(keys, keys[i]) in keys
    {
      RepresentativeHash(keys, keys[i]);
      SameHashIsEqual(keys[i], Representative(keys, keys[i]));
      RepresentativeIsIn(keys, keys[i]);
    }
    forall i | 0 <= i < |keys| && !Hashable(keys[i]) ensures Representative(keys, keys[i]) == keys[i] {}
  }

  lemma RepresentativeIsIn(keys: seq<Value>, key: Value)
    requires key in keys
    ensures Representative(keys, key) in keys
  {
    if Hashable(key) && HashOf(keys[0]) != HashOf(key) {
      RepresentativeIsIn(keys[1..], key);
    }
  }

  // ----- EachStep: explode, map once, regroup -----

  /** `None` stands for a missing list, which explodes like an empty one. */
  function ItemsOf<A>(list: Option<seq<A>>): seq<A>
  {
    if list.Some? then list.value else []
  }

  function Flat<A>(lists: seq<Option<seq<A>>>): seq<A>
  {
    if lists == [] then [] else Flat(lists[..|lists| - 1]) + ItemsOf(lists[|lists| - 1])
  }

  /** Where entry `i`'s items start in the flat bucket. */
  function Start<A>(lists: seq<Option<seq<A>>>, i: nat): nat
    requires i <= |lists|
  {
    |Flat(lists[..i])|
  }

  lemma {:induction false} FlatAt<A>(lists: seq<Option<seq<A>>>, i: nat)
    requires i < |lists|
    ensures Start(lists, i + 1) == Start(lists, i) + |ItemsOf(lists[i])| <= |Flat(lists)|
    ensures Flat(lists)[Start(lists, i)..Start(lists, i + 1)] == ItemsOf(lists[i])
    decreases |lists|
  {
    assert lists[..i + 1][..i] == lists[..i];
    var init := lists[..|lists| - 1];
    if i == |lists| - 1 {
      assert lists[..i + 1] == lists;
    } else {
      FlatAt(init, i);
      assert init[..i] == lists[..i] && init[..i + 1] == lists[..i + 1];
    }
  }

  /** Each flat item's owner, entry by entry. */
  ghost predicate OwnersOf<A>(lists: seq<Option<seq<A>>>, n: nat, owners: seq<nat>)
    requires n <= |lists|
  {
    && |owners| == Start(lists, n)
    && forall i, k :: 0 <= i < n && Start(lists, i) <= k < Start(lists, i) + |ItemsOf(lists[i])| && k < |owners| ==> owners[k] == i
  }

  /** The items lie in the flat bucket from `start` on, in order, each under its list's number. */
  ghost predicate LieFrom<A>(flat: seq<A>, owners: seq<nat>, start: nat, list: seq<A>, i: nat)
  {
    start + |list| <= |flat| == |owners| && forall j :: 0 <= j < |list| ==> flat[start + j] == list[j] && owners[start + j] == i
  }

  /** Each list's items lie where the lists before it end; a missing list has none. */
  ghost predicate LiesAt<A>(lists: seq<Option<seq<A>>>, flat: seq<A>, owners: seq<nat>, i: nat)
    requires i < |lists|
  {
    match lists[i]
    case None => Start(lists, i + 1) == Start(lists, i)
    case Some(list) => Start(lists, i + 1) == Start(lists, i) + |list| && LieFrom(flat, owners, Start(lists, i), list, i)
  }

  lemma StretchLies<A>(flat: seq<A>, owners: seq<nat>, start: nat, list: seq<A>, i: nat)
    requires start + |list| <= |flat| == |owners| && flat[start..start + |list|] == list
    requires forall k :: start <= k < start + |list| ==> owners[k] == i
    ensures LieFrom(flat, owners, start, list, i)
  {
    forall j | 0 <= j < |list| ensures flat[start + j] == list[j] { assert flat[start..start + |list|][j] == list[j]; }
  }

  lemma ExplodedLies<A>(lists: seq<Option<seq<A>>>, owners: seq<nat>, i: nat)
    requires i < |lists| && OwnersOf(lists, |lists|, owners)
    ensures LiesAt(lists, Flat(lists), owners, i)
  {
    FlatAt(lists, i);
    if lists[i].Some? { ItemsLie(lists, Flat(lists), owners, i, Start(lists, i), lists[i].value); }
  }

  lemma ItemsLie<A>(lists: seq<Option<seq<A>>>, flat: seq<A>, owners: seq<nat>, i: nat, start: nat, list: seq<A>)
    requires i < |lists| && lists[i] == Some(list) && OwnersOf(lists, |lists|, owners) && start == Start(lists, i) && flat == Flat(lists)
    requires start + |list| <= |flat| && flat[start..start + |list|] == list
    ensures LieFrom(flat, owners, start, list, i)
  {
    OwnedStretch(lists, owners, i, start, |list|);
    StretchLies(flat, owners, start, list, i);
  }

  lemma OwnedStretch<A>(lists: seq<Option<seq<A>>>, owners: seq<nat>, i: nat, start: nat, size: nat)
    requires i < |lists| && OwnersOf(lists, |lists|, owners) && start == Start(lists, i) && size == |ItemsOf(lists[i])|
    ensures |owners| == |Flat(lists)| && forall k :: start <= k < start + size && k < |owners| ==> owners[k] == i
  {
    assert lists[..|lists|] == lists;
  }

  method Explode<A>(lists: seq<Option<seq<A>>>) returns (flat: seq<A>, owners: seq<nat>)
    ensures flat == Flat(lists) && OwnersOf(lists, |lists|, owners)
    ensures Start(lists, 0) == 0 && Start(lists, |lists|) == |flat| && forall i :: 0 <= i < |lists| ==> LiesAt(lists, flat, owners, i)
  {
    flat, owners := [], [];
    for i := 0 to |lists|
      invariant flat == Flat(lists[..i]) && OwnersOf(lists, i, owners)
    {
      ghost var was := owners;
      flat, owners := ExplodeOne(ItemsOf(lists[i]), i, flat, owners);
      FlatNext(lists, i);
      OwnersNext(lists, i, was, owners);
    }
    assert lists[..|lists|] == lists;
    forall i | 0 <= i < |lists| ensures LiesAt(lists, flat, owners, i) { ExplodedLies(lists, owners, i); }
  }

  method ExplodeOne<A>(items: seq<A>, i: nat, flat: seq<A>, owners: seq<nat>) returns (flat': seq<A>, owners': seq<nat>)
    ensures flat' == flat + items && SameOwner(owners, owners', |items|, i)
  {
    flat', owners' := flat, owners;
    for j := 0 to |items|
      invariant flat' == flat + items[..j] && SameOwner(owners, owners', j, i)
    {
      assert items[..j + 1] == items[..j] + [items[j]];
      flat', owners' := flat' + [items[j]], owners' + [i];
    }
    assert items[..|items|] == items;
  }

  /** `n` more items, all of entry `i`. */
  ghost predicate SameOwner(was: seq<nat>, owners: seq<nat>, n: nat, i: nat)
  {
    was <= owners && |owners| == |was| + n && forall k :: |was| <= k < |owners| ==> owners[k] == i
  }

  lemma FlatNext<A>(lists: seq<Option<seq<A>>>, i: nat)
    requires i < |lists|
    ensures Flat(lists[..i + 1]) == Flat(lists[..i]) + ItemsOf(lists[i])
  {
    assert lists[..i + 1][..i] == lists[..i];
  }

  lemma OwnersNext<A>(lists: seq<Option<seq<A>>>, i: nat, was: seq<nat>, owners: seq<nat>)
    requires i < |lists| && OwnersOf(lists, i, was) && SameOwner(was, owners, |ItemsOf(lists[i])|, i)
    ensures OwnersOf(lists, i + 1, owners)
  {
    FlatAt(lists, i);
    forall h, k | 0 <= h < i + 1 && Start(lists, h) <= k < Start(lists, h) + |ItemsOf(lists[h])| && k < |owners|
      ensures owners[k] == h
    {
      if h < i { StartGrows(lists, h + 1, i); FlatAt(lists, h); }
    }
  }

  lemma {:induction false} StartGrows<A>(lists: seq<Option<seq<A>>>, i: nat, j: nat)
    requires i <= j <= |lists|
    ensures Start(lists, i) <= Start(lists, j)
  {
    if i < j {
      StartGrows(lists, i, j - 1);
      FlatAt(lists, j - 1);
    }
  }

  /** How far each entry's group has been filled after the first `k` mapped items. */
  ghost predicate GroupedTo<A, B>(lists: seq<Option<seq<A>>>, mapped: seq<B>, k: nat, grouped: seq<seq<B>>)
    requires |mapped| == Start(lists, |lists|) && k <= |mapped|
  {
    && |grouped| == |lists|
    && forall i :: 0 <= i < |lists| ==> GroupIs(mapped, Start(lists, i), |ItemsOf(lists[i])|, k, grouped[i])
  }

  ghost predicate GroupIs<B>(mapped: seq<B>, start: nat, size: nat, k: nat, group: seq<B>)
    requires k <= |mapped|
  {
    var end := if k < start + size then k else start + size;
    if end <= start then group == [] else group == mapped[start..end]
  }

  /** Regroups a mapped flat bucket: entry `i` gets exactly the stretch its items became, in order; a missing list gets none. */
  method Regroup<A, B>(lists: seq<Option<seq<A>>>, owners: seq<nat>, mapped: seq<B>) returns (grouped: seq<seq<B>>)
    requires OwnersOf(lists, |lists|, owners) && |mapped| == |owners|
    ensures |grouped| == |lists| && forall i :: 0 <= i < |lists| ==>
              Start(lists, i) + |ItemsOf(lists[i])| <= |mapped| && grouped[i] == mapped[Start(lists, i)..Start(lists, i) + |ItemsOf(lists[i])|]
    ensures forall i :: 0 <= i < |lists| ==> GroupOf(lists, mapped, i, grouped[i])
  {
    grouped := seq(|lists|, _ => []);
    NothingGrouped(lists, mapped, grouped);
    for k := 0 to |owners|
      invariant GroupedTo(lists, mapped, k, grouped)
    {
      grouped := RegroupOne(lists, owners, mapped, k, grouped);
    }
    AllGrouped(lists, mapped, grouped);
    forall i | 0 <= i < |lists| ensures GroupOf(lists, mapped, i, grouped[i]) { StretchIsGroup(lists, mapped, i, grouped[i]); }
  }

  /** What its items became, item by item; nothing for a missing list. */
  ghost predicate GroupOf<A, B>(lists: seq<Option<seq<A>>>, mapped: seq<B>, i: nat, group: seq<B>)
    requires i < |lists|
  {
    match lists[i]
    case None => group == []
    case Some(list) =>
      Start(lists, i) + |list| <= |mapped| && |group| == |list| && forall j :: 0 <= j < |list| ==> group[j] == mapped[Start(lists, i) + j]
  }

  lemma StretchIsGroup<A, B>(lists: seq<Option<seq<A>>>, mapped: seq<B>, i: nat, group: seq<B>)
    requires i < |lists| && Start(lists, i) + |ItemsOf(lists[i])| <= |mapped|
    requires group == mapped[Start(lists, i)..Start(lists, i) + |ItemsOf(lists[i])|]
    ensures GroupOf(lists, mapped, i, group)
  {
  }

  method RegroupOne<A, B>(ghost lists: seq<Option<seq<A>>>, owners: seq<nat>, mapped: seq<B>, k: nat, grouped: seq<seq<B>>) returns (grouped': seq<seq<B>>)
    requires OwnersOf(lists, |lists|, owners) && |mapped| == |owners| && k < |mapped| && GroupedTo(lists, mapped, k, grouped)
    ensures GroupedTo(lists, mapped, k + 1, grouped')
  {
    OwnerOwns(lists, owners, k);
    OneMoreGrouped(lists, mapped, k, owners[k], grouped);
    grouped' := grouped[owners[k] := grouped[owners[k]] + [mapped[k]]];
  }

  lemma AllGrouped<A, B>(lists: seq<Option<seq<A>>>, mapped: seq<B>, grouped: seq<seq<B>>)
    requires |mapped| == Start(lists, |lists|) && GroupedTo(lists, mapped, |mapped|, grouped)
    ensures forall i :: 0 <= i < |lists| ==>
              Start(lists, i) + |ItemsOf(lists[i])| <= |mapped| && grouped[i] == mapped[Start(lists, i)..Start(lists, i) + |ItemsOf(lists[i])|]
  {
    forall i | 0 <= i < |lists|
      ensures Start(lists, i) + |ItemsOf(lists[i])| <= |mapped| && grouped[i] == mapped[Start(lists, i)..Start(lists, i) + |ItemsOf(lists[i])|]
    {
      FlatAt(lists, i);
      StartGrows(lists, i + 1, |lists|);
      assert GroupIs(mapped, Start(lists, i), |ItemsOf(lists[i])|, |mapped|, grouped[i]);
    }
  }

  lemma NothingGrouped<A, B>(lists: seq<Option<seq<A>>>, mapped: seq<B>, grouped: seq<seq<B>>)
    requires |mapped| == Start(lists, |lists|) && |grouped| == |lists| && forall i :: 0 <= i < |lists| ==> grouped[i] == []
    ensures GroupedTo(lists, mapped, 0, grouped)
  {
  }

  lemma {:induction false} OwnerOwns<A>(lists: seq<Option<seq<A>>>, owners: seq<nat>, k: nat)
    requires OwnersOf(lists, |lists|, owners) && k < |owners|
    ensures owners[k] < |lists| && Start(lists, owners[k]) <= k < Start(lists, owners[k]) + |ItemsOf(lists[owners[k]])|
  {
    var i := OwnerExists(lists, k, |lists|);
  }

  lemma {:induction false} OwnerExists<A>(lists: seq<Option<seq<A>>>, k: nat, n: nat) returns (i: nat)
    requires n <= |lists| && k < Start(lists, n)
    ensures i < n && Start(lists, i) <= k < Start(lists, i) + |ItemsOf(lists[i])|
  {
    FlatAt(lists, n - 1);
    if k < Start(lists, n - 1) {
      i := OwnerExists(lists, k, n - 1);
    } else {
      i := n - 1;
    }
  }

  lemma GroupNext<B>(mapped: seq<B>, start: nat, size: nat, k: nat, group: seq<B>)
    requires k < |mapped| && GroupIs(mapped, start, size, k, group)
    ensures if start <= k < start + size then GroupIs(mapped, start, size, k + 1, group + [mapped[k]]) else GroupIs(mapped, start, size, k + 1, group)
  {
    if start <= k < start + size {
      assert mapped[start..k + 1] == mapped[start..k] + [mapped[k]];
    }
  }

  lemma OthersApart<A>(lists: seq<Option<seq<A>>>, i: nat, owner: nat, k: nat)
    requires i < |lists| && owner < |lists| && i != owner && Start(lists, owner) <= k < Start(lists, owner) + |ItemsOf(lists[owner])|
    ensures !(Start(lists, i) <= k < Start(lists, i) + |ItemsOf(lists[i])|)
  {
    if i < owner {
      FlatAt(lists, i);
      StartGrows(lists, i + 1, owner);
    } else {
      FlatAt(lists, owner);
      StartGrows(lists, owner + 1, i);
    }
  }

  lemma OneMoreGrouped<A, B>(lists: seq<Option<seq<A>>>, mapped: seq<B>, k: nat, owner: nat, grouped: seq<seq<B>>)
    requires |mapped| == Start(lists, |lists|) && k < |mapped| && GroupedTo(lists, mapped, k, grouped)
    requires owner < |lists| && Start(lists, owner) <= k < Start(lists, owner) + |ItemsOf(lists[owner])|
    ensures GroupedTo(lists, mapped, k + 1, grouped[owner := grouped[owner] + [mapped[k]]])
  {
    var next := grouped[owner := grouped[owner] + [mapped[k]]];
    forall i | 0 <= i < |lists|
      ensures GroupIs(mapped, Start(lists, i), |ItemsOf(lists[i])|, k + 1, next[i])
    {
      GroupNext(mapped, Start(lists, i), |ItemsOf(lists[i])|, k, grouped[i]);
      if i != owner { OthersApart(lists, i, owner, k); }
    }
  }

  /** Each of the entry's items, mapped. */
  ghost predicate MappedEach<A, B>(items: seq<A>, each: A -> B, group: seq<B>)
  {
    |group| == |items| && forall j :: 0 <= j < |items| ==> group[j] == each(items[j])
  }

  lemma StretchIsMapped<A, B>(lists: seq<Option<seq<A>>>, each: A -> B, mapped: seq<B>, i: nat)
    requires i < |lists| && MappedEach(Flat(lists), each, mapped)
    ensures Start(lists, i) + |ItemsOf(lists[i])| <= |mapped|
    ensures MappedEach(ItemsOf(lists[i]), each, mapped[Start(lists, i)..Start(lists, i) + |ItemsOf(lists[i])|])
  {
    FlatAt(lists, i);
    StretchIs(Flat(lists), each, mapped, Start(lists, i), ItemsOf(lists[i]));
  }

  lemma StretchIs<A, B>(flat: seq<A>, each: A -> B, mapped: seq<B>, start: nat, items: seq<A>)
    requires MappedEach(flat, each, mapped) && start + |items| <= |flat| && flat[start..start + |items|] == items
    ensures MappedEach(items, each, mapped[start..start + |items|])
  {
    forall j | 0 <= j < |items| ensures mapped[start..start + |items|][j] == each(items[j]) { assert items[j] == flat[start + j]; }
  }

  // ----- NodeStep: one batch a type -----

  /** One entry of the id column: an upstream error, or an id. */
  datatype NodeId = Poisoned(message: string) | GlobalId(text: string)

  /** A decoded id: the type it names and the key its loader expects. */
  datatype NodeKey = NodeKey(typeName: string, key: Value)

  type Decoder = string -> Option<NodeKey>

  type Loaders<!R> = map<string, seq<Value> -> Loaded<R>>

  /** The batch entry an id joins; an id that is poisoned, malformed or of an unknown type joins none. */
  function JoinsBatch<R>(loaders: Loaders<R>, decode: Decoder, id: NodeId): Option<NodeKey>
  {
    match id
    case Poisoned(_) => None
    case GlobalId(text) =>
      match decode(text)
      case None => None
      case Some(k) => if k.typeName in loaders then Some(k) else None
  }

  function OwnError<R>(loaders: Loaders<R>, decode: Decoder, id: NodeId): string
    requires JoinsBatch(loaders, decode, id).None?
  {
    match id
    case Poisoned(m) => m
    case GlobalId(text) => if decode(text).None? then "malformed global id" else "no loader registered"
  }

  /** The keys the first `n` ids send to `typeName`'s loader, in entry order. */
  function KeysOfType<R>(loaders: Loaders<R>, decode: Decoder, ids: seq<NodeId>, n: nat, typeName: string): (r: seq<Value>)
    requires n <= |ids|
  {
    if n == 0 then []
    else
      var k := JoinsBatch(loaders, decode, ids[n - 1]);
      KeysOfType(loaders, decode, ids, n - 1, typeName) + if k.Some? && k.value.typeName == typeName then [k.value.key] else []
  }

  /** What entry `i` of the node column means: its own error, its type's error, or its own record. */
  function NodeOf<R>(loaders: Loaders<R>, decode: Decoder, ids: seq<NodeId>, i: nat): Option<Entry<R>>
    requires i < |ids|
  {
    var k := JoinsBatch(loaders, decode, ids[i]);
    if k.None? then Some(Failed(OwnError(loaders, decode, ids[i])))
    else
      match loaders[k.value.typeName](KeysOfType(loaders, decode, ids, |ids|, k.value.typeName))
      case LoadRaised(m) => Some(Failed(m))
      case Results(rs) =>
        var at := |KeysOfType(loaders, decode, ids, i, k.value.typeName)|;
        if at < |rs| then Some(Record(rs[at])) else None
  }

  /** An id's own fault is its own entry: poisoned upstream, malformed, or of a type no loader is registered for; any other id
      gets its type's error or a record. */
  ghost predicate EntryFits<R>(loaders: Loaders<R>, decode: Decoder, id: NodeId, entry: Entry<R>)
  {
    match id
    case Poisoned(m) => entry == Failed(m)
    case GlobalId(text) =>
      match decode(text)
      case None => entry == Failed("malformed global id")
      case Some(k) =>
        if k.typeName !in loaders then entry == Failed("no loader registered")
        else
          entry.Record? || exists keys :: loaders[k.typeName](keys).LoadRaised? && entry == Failed(loaders[k.typeName](keys).message)
  }

  lemma NodeFits<R(!new)>(loaders: Loaders<R>, decode: Decoder, ids: seq<NodeId>, i: nat, entry: Entry<R>)
    requires i < |ids| && NodeOf(loaders, decode, ids, i) == Some(entry)
    ensures EntryFits(loaders, decode, ids[i], entry)
  {
  }

  ghost predicate Batches<R>(loaders: Loaders<R>, decode: Decoder, ids: seq<NodeId>, n: nat, keysByType: map<string, seq<Value>>)
    requires n <= |ids|
  {
    forall t :: (t in keysByType <==> t in loaders && KeysOfType(loaders, decode, ids, n, t) != [])
             && (t in keysByType ==> keysByType[t] == KeysOfType(loaders, decode, ids, n, t))
  }

  /** The partition loop: each id that decodes joins its type's batch. */
  method Partition<R>(loaders: Loaders<R>, decode: Decoder, ids: seq<NodeId>) returns (keysByType: map<string, seq<Value>>)
    ensures Batches(loaders, decode, ids, |ids|, keysByType)
  {
    keysByType := map[];
    for i := 0 to |ids|
      invariant Batches(loaders, decode, ids, i, keysByType)
    {
      match JoinsBatch(loaders, decode, ids[i])
      case None =>
      case Some(k) =>
        var sofar := if k.typeName in keysByType then keysByType[k.typeName] else [];
        keysByType := keysByType[k.typeName := sofar + [k.key]];
    }
  }

  /** The length check of `_scatter_nodes`. */
  ghost predicate Aligned<R>(loaders: Loaders<R>, keysByType: map<string, seq<Value>>)
    requires forall t :: t in keysByType ==> t in loaders
  {
    forall t :: t in keysByType && loaders[t](keysByType[t]).Results? ==> |loaders[t](keysByType[t]).results| == |keysByType[t]|
  }

  method CheckAligned<R>(loaders: Loaders<R>, keysByType: map<string, seq<Value>>) returns (ok: bool)
    requires forall t :: t in keysByType ==> t in loaders
    ensures ok <==> Aligned(loaders, keysByType)
  {
    var todo := keysByType.Keys;
    while todo != {}
      invariant todo <= keysByType.Keys
      invariant forall t :: t in keysByType && t !in todo && loaders[t](keysByType[t]).Results? ==> |loaders[t](keysByType[t]).results| == |keysByType[t]|
    {
      var t :| t in todo;
      var loaded := loaders[t](keysByType[t]);
      if loaded.Results? && |loaded.results| != |keysByType[t]| {
        return false;
      }
      todo := todo - {t};
    }
    return true;
  }

  /** Each type's running cursor stands behind the records already handed out. */
  ghost predicate Cursors<R>(loaders: Loaders<R>, decode: Decoder, ids: seq<NodeId>, n: nat, keysByType: map<string, seq<Value>>, nextPos: map<string, nat>)
    requires n <= |ids| && forall t :: t in keysByType ==> t in loaders
  {
    && nextPos.Keys == keysByType.Keys
    && forall t :: t in nextPos && loaders[t](keysByType[t]).Results? ==> nextPos[t] == |KeysOfType(loaders, decode, ids, n, t)|
  }

  lemma {:induction false} KeysGrow<R>(loaders: Loaders<R>, decode: Decoder, ids: seq<NodeId>, i: nat, n: nat, t: string)
    requires i <= n <= |ids|
    ensures |KeysOfType(loaders, decode, ids, i, t)| <= |KeysOfType(loaders, decode, ids, n, t)|
  {
    if i < n { KeysGrow(loaders, decode, ids, i, n - 1, t); }
  }

  lemma JoinedIsBatched<R>(loaders: Loaders<R>, decode: Decoder, ids: seq<NodeId>, i: nat, keysByType: map<string, seq<Value>>, t: string)
    requires i < |ids| && Batches(loaders, decode, ids, |ids|, keysByType)
    requires var k := JoinsBatch(loaders, decode, ids[i]); k.Some? && k.value.typeName == t
    ensures t in keysByType && keysByType[t] == KeysOfType(loaders, decode, ids, |ids|, t)
    ensures |KeysOfType(loaders, decode, ids, i, t)| < |keysByType[t]|
  {
    var all := KeysOfType(loaders, decode, ids, |ids|, t);
    KeyAtItsPlace(loaders, decode, ids, i, |ids|);
    assert |all| > |KeysOfType(loaders, decode, ids, i, t)|;
    assert t in keysByType && keysByType[t] == all;
  }

  /** One entry of `_scatter_nodes`. */
  method ScatterNode<R>(loaders: Loaders<R>, decode: Decoder, ids: seq<NodeId>, i: nat, keysByType: map<string, seq<Value>>, nextPos: map<string, nat>)
    returns (entry: Entry<R>, nextPos': map<string, nat>)
    requires i < |ids| && Batches(loaders, decode, ids, |ids|, keysByType)
    requires Aligned(loaders, keysByType) && Cursors(loaders, decode, ids, i, keysByType, nextPos)
    ensures Some(entry) == NodeOf(loaders, decode, ids, i)
    ensures Cursors(loaders, decode, ids, i + 1, keysByType, nextPos')
  {
    nextPos' := nextPos;
    var k := JoinsBatch(loaders, decode, ids[i]);
    if k.None? {
      return Failed(OwnError(loaders, decode, ids[i])), nextPos;
    }
    var t := k.value.typeName;
    JoinedIsBatched(loaders, decode, ids, i, keysByType, t);
    match loaders[t](keysByType[t])
    case LoadRaised(m) => entry := Failed(m);
    case Results(rs) =>
      entry := Record(rs[nextPos[t]]);
      nextPos' := nextPos[t := nextPos[t] + 1];
  }

  /** `NodeStep.execute`: one call a type; a loader that breaks its contract stops the run (None), otherwise every
      entry gets what it means: the running cursor of its type points at its own record. */
  method ExecuteNode<R(!new)>(loaders: Loaders<R>, decode: Decoder, ids: seq<NodeId>) returns (column: Option<seq<Entry<R>>>)
    ensures column.Some? ==> |column.value| == |ids| && forall i :: 0 <= i < |ids| ==> Some(column.value[i]) == NodeOf(loaders, decode, ids, i)
    ensures column.None? <==> SomeBreaks(loaders, decode, ids)
    ensures column.Some? ==> forall i :: 0 <= i < |ids| ==> EntryFits(loaders, decode, ids[i], column.value[i])
  {
    var keysByType := Partition(loaders, decode, ids);
    var ok := CheckAligned(loaders, keysByType);
    AlignedUnlessBroken(loaders, decode, ids, keysByType);
    if !ok {
      return None;
    }
    var out := ScatterNodes(loaders, decode, ids, keysByType);
    forall i | 0 <= i < |ids| ensures EntryFits(loaders, decode, ids[i], out[i]) { NodeFits(loaders, decode, ids, i, out[i]); }
    column := Some(out);
  }

  method ScatterNodes<R>(loaders: Loaders<R>, decode: Decoder, ids: seq<NodeId>, keysByType: map<string, seq<Value>>) returns (out: seq<Entry<R>>)
    requires Batches(loaders, decode, ids, |ids|, keysByType) && Aligned(loaders, keysByType)
    ensures NodesUpTo(loaders, decode, ids, |ids|, out)
  {
    out := [];
    var nextPos := StartCursors(loaders, decode, ids, keysByType);
    for i := 0 to |ids|
      invariant Cursors(loaders, decode, ids, i, keysByType, nextPos) && NodesUpTo(loaders, decode, ids, i, out)
    {
      var entry;
      entry, nextPos := ScatterNode(loaders, decode, ids, i, keysByType, nextPos);
      OneMoreNode(loaders, decode, ids, i, out, entry);
      out := out + [entry];
    }
  }

  method StartCursors<R>(ghost loaders: Loaders<R>, ghost decode: Decoder, ghost ids: seq<NodeId>, keysByType: map<string, seq<Value>>) returns (nextPos: map<string, nat>)
    requires forall t :: t in keysByType ==> t in loaders
    ensures Cursors(loaders, decode, ids, 0, keysByType, nextPos)
  {
    nextPos := map t | t in keysByType :: 0;
  }

  lemma OneMoreNode<R>(loaders: Loaders<R>, decode: Decoder, ids: seq<NodeId>, n: nat, out: seq<Entry<R>>, entry: Entry<R>)
    requires n < |ids| && NodesUpTo(loaders, decode, ids, n, out) && Some(entry) == NodeOf(loaders, decode, ids, n)
    ensures NodesUpTo(loaders, decode, ids, n + 1, out + [entry])
  {
  }

  /** The first `n` entries are what their ids mean. */
  ghost predicate NodesUpTo<R>(loaders: Loaders<R>, decode: Decoder, ids: seq<NodeId>, n: nat, out: seq<Entry<R>>)
    requires n <= |ids|
  {
    |out| == n && forall j :: 0 <= j < n ==> Some(out[j]) == NodeOf(loaders, decode, ids, j)
  }

  lemma AlignedUnlessBroken<R>(loaders: Loaders<R>, decode: Decoder, ids: seq<NodeId>, keysByType: map<string, seq<Value>>)
    requires Batches(loaders, decode, ids, |ids|, keysByType)
    ensures Aligned(loaders, keysByType) <==> !SomeBreaks(loaders, decode, ids)
  {
    forall t | t in loaders && BreaksContract(loaders, decode, ids, t) ensures t in keysByType {}
    forall t | t in keysByType && loaders[t](keysByType[t]).Results? && |loaders[t](keysByType[t]).results| != |keysByType[t]|
      ensures BreaksContract(loaders, decode, ids, t)
    {
    }
  }

  ghost predicate SomeBreaks<R>(loaders: Loaders<R>, decode: Decoder, ids: seq<NodeId>)
  {
    exists t :: t in loaders && BreaksContract(loaders, decode, ids, t)
  }

  /** A type some id joined, whose loader answers with the wrong number of records. */
  ghost predicate BreaksContract<R>(loaders: Loaders<R>, decode: Decoder, ids: seq<NodeId>, t: string)
    requires t in loaders
  {
    var keys := KeysOfType(loaders, decode, ids, |ids|, t);
    keys != [] && loaders[t](keys).Results? && |loaders[t](keys).results| != |keys|
  }

  lemma {:induction false} KeyAtItsPlace<R>(loaders: Loaders<R>, decode: Decoder, ids: seq<NodeId>, i: nat, n: nat)
    requires i < n <= |ids| && JoinsBatch(loaders, decode, ids[i]).Some?
    ensures var k := JoinsBatch(loaders, decode, ids[i]).value;
            var at := |KeysOfType(loaders, decode, ids, i, k.typeName)|;
            at < |KeysOfType(loaders, decode, ids, n, k.typeName)| && KeysOfType(loaders, decode, ids, n, k.typeName)[at] == k.key
  {
    if i < n - 1 { KeyAtItsPlace(loaders, decode, ids, i, n - 1); }
  }

  /** With loaders that answer key by key an entry's value is its own id's alone: a bad id spoils only its own entry. */
  lemma NodeIsItsOwn<R(!new)>(loaders: Loaders<R>, decode: Decoder, one: map<string, Value -> R>, ids: seq<NodeId>, i: nat)
    requires i < |ids| && one.Keys == loaders.Keys && forall t :: t in loaders ==> LoadsEach(loaders[t], one[t])
    ensures NodeOf(loaders, decode, ids, i) == NodeOf(loaders, decode, [ids[i]], 0)
    ensures match ids[i]
            case Poisoned(m) => NodeOf(loaders, decode, ids, i) == Some(Failed(m))
            case GlobalId(text) =>
              match decode(text)
              case None => NodeOf(loaders, decode, ids, i) == Some(Failed("malformed global id"))
              case Some(k) =>
                NodeOf(loaders, decode, ids, i) == Some(if k.typeName in loaders then Record(one[k.typeName](k.key)) else Failed("no loader registered"))
  {
    var k := JoinsBatch(loaders, decode, ids[i]);
    if k.Some? {
      KeyAtItsPlace(loaders, decode, ids, i, |ids|);
      KeyAtItsPlace(loaders, decode, [ids[i]], 0, 1);
    }
  }
}
