/** The partition of one object level's fields into what is executed now and the groups its @defer usages call for. */
module DeferPartition {
  import opened Wrappers
  import opened Sequences

  /** One use of @defer, told apart by identity. */
  datatype Usage = Usage(n: nat)

  /** The enclosing uses: each one's parent is older. */
  datatype Usages = Usages(parentOf: Usage -> Option<Usage>, depth: Usage -> nat)

  ghost predicate Enclosing(us: Usages)
  {
    forall u :: us.parentOf(u).Some? ==> us.depth(us.parentOf(u).value) < us.depth(u)
  }

  /** One selection of a response key and the @defer it stands under, if any. */
  datatype Detail = Detail(node: nat, usage: Option<Usage>)

  datatype Field = Field(key: string, details: seq<Detail>)

  function UsagesOf(details: seq<Detail>): (r: set<Usage>)
    ensures forall u :: u in r <==> exists i :: 0 <= i < |details| && details[i].usage == Some(u)
  {
    set i | 0 <= i < |details| && details[i].usage.Some? :: details[i].usage.value
  }

  /** Some enclosing use of `u` lies in `s`. */
  ghost predicate HasAncestorIn(us: Usages, u: Usage, s: set<Usage>)
    requires Enclosing(us)
    decreases us.depth(u)
  {
    us.parentOf(u).Some? && (us.parentOf(u).value in s || HasAncestorIn(us, us.parentOf(u).value, s))
  }

  /** `p` encloses `u`, however deep. */
  ghost predicate Encloses(us: Usages, p: Usage, u: Usage)
    requires Enclosing(us)
    decreases us.depth(u)
  {
    us.parentOf(u).Some? && (us.parentOf(u).value == p || Encloses(us, p, us.parentOf(u).value))
  }

  /** What governs a response key: nothing when some selection is not deferred, otherwise the outermost of its uses. */
  ghost function Governing(us: Usages, details: seq<Detail>): set<Usage>
    requires Enclosing(us)
  {
    if exists i :: 0 <= i < |details| && details[i].usage.None? then {}
    else set u | u in UsagesOf(details) && !HasAncestorIn(us, u, UsagesOf(details))
  }

  /** Some selection of the key stands under no @defer. */
  ghost predicate HasUndeferred(details: seq<Detail>)
  {
    exists i :: 0 <= i < |details| && details[i].usage.None?
  }

  /** `u` governs the key: every selection of it is deferred, one under `u`, and none under a use around `u`. */
  ghost predicate Governs(us: Usages, details: seq<Detail>, u: Usage)
    requires Enclosing(us)
  {
    && !HasUndeferred(details)
    && (exists i :: 0 <= i < |details| && details[i].usage == Some(u))
    && (forall i :: 0 <= i < |details| && details[i].usage.Some? ==> !Encloses(us, details[i].usage.value, u))
  }

  /** Some selection under `u` comes before every one under `v`. */
  ghost predicate SeenBefore(details: seq<Detail>, u: Usage, v: Usage)
  {
    exists i :: 0 <= i < |details| && details[i].usage == Some(u) && forall j :: 0 <= j <= i ==> details[j].usage != Some(v)
  }

  ghost predicate InOrderSeen(details: seq<Detail>, kept: seq<Usage>)
  {
    forall a, b :: 0 <= a < b < |kept| ==> SeenBefore(details, kept[a], kept[b])
  }

  lemma GoverningMeans(us: Usages, details: seq<Detail>, u: Usage)
    requires Enclosing(us)
    ensures u in Governing(us, details) <==> Governs(us, details, u)
  {
    var s := UsagesOf(details);
    if u in s && HasAncestorIn(us, u, s) {
      var p := AncestorOf(us, u, s);
      var i :| 0 <= i < |details| && details[i].usage == Some(p);
    }
    forall i | 0 <= i < |details| && details[i].usage.Some? && Encloses(us, details[i].usage.value, u)
      ensures HasAncestorIn(us, u, s)
    {
      EnclosedHasAncestor(us, details[i].usage.value, u, s);
    }
  }

  /** Nothing governs a key exactly when it has a selection that is not deferred, or none at all. */
  lemma UngovernedIff(us: Usages, details: seq<Detail>)
    requires Enclosing(us)
    ensures Governing(us, details) == {} <==> details == [] || HasUndeferred(details)
  {
    if details != [] && !HasUndeferred(details) {
      var u := details[0].usage.value;
      if HasAncestorIn(us, u, UsagesOf(details)) {
        var p := OutermostOf(us, u, UsagesOf(details));
        assert p in Governing(us, details);
      } else {
        assert u in Governing(us, details);
      }
    }
  }

  lemma SeenLater(details: seq<Detail>, i: nat, filtered: seq<Usage>, u: Usage)
    requires i < |details| && details[i].usage == Some(u) && u !in filtered
    requires Elements(filtered) == UsagesOf(details[..i]) && InOrderSeen(details, filtered)
    ensures InOrderSeen(details, filtered + [u])
  {
    var r := filtered + [u];
    forall a, b | 0 <= a < b < |r|
      ensures SeenBefore(details, r[a], r[b])
    {
      if b < |filtered| {
        assert SeenBefore(details, filtered[a], filtered[b]);
      } else {
        assert filtered[a] in UsagesOf(details[..i]);
        var k :| 0 <= k < |details[..i]| && details[..i][k].usage == Some(filtered[a]);
        assert details[k].usage == Some(filtered[a]);
        forall j | 0 <= j <= k ensures details[j].usage != Some(u) {
          assert u !in UsagesOf(details[..i]) && details[..i][j] == details[j];
        }
      }
    }
  }

  /** The pruning walk: does any enclosing use appear in `seen`? */
  method Pruned(us: Usages, u: Usage, seen: set<Usage>) returns (pruned: bool)
    requires Enclosing(us)
    ensures pruned <==> HasAncestorIn(us, u, seen)
  {
    var parent := us.parentOf(u);
    ghost var at := u;
    while parent.Some?
      invariant parent == us.parentOf(at) && (HasAncestorIn(us, at, seen) <==> HasAncestorIn(us, u, seen))
      decreases us.depth(at)
    {
      if parent.value in seen {
        return true;
      }
      at := parent.value;
      parent := us.parentOf(parent.value);
    }
    return false;
  }

  /** `get_filtered_defer_usage_set`, in first-seen order. */
  method GetFilteredDeferUsageSet(us: Usages, details: seq<Detail>) returns (kept: seq<Usage>)
    requires Enclosing(us)
    ensures Distinct(kept) && Elements(kept) == Governing(us, details) && InOrderSeen(details, kept)
    ensures kept == [] <==> details == [] || HasUndeferred(details)
    ensures forall u :: u in kept <==> Governs(us, details, u)
  {
    UngovernedIff(us, details);
    forall u ensures u in Governing(us, details) <==> Governs(us, details, u) { GoverningMeans(us, details, u); }
    var filtered: seq<Usage> := [];
    for i := 0 to |details|
      invariant forall j :: 0 <= j < i ==> details[j].usage.Some?
      invariant Distinct(filtered) && Elements(filtered) == UsagesOf(details[..i]) && InOrderSeen(details, filtered)
    {
      assert details[..i + 1] == details[..i] + [details[i]];
      if details[i].usage.None? {
        return [];
      }
      if details[i].usage.value !in filtered {
        SeenLater(details, i, filtered, details[i].usage.value);
        filtered := filtered + [details[i].usage.value];
      }
    }
    assert details[..|details|] == details;
    kept := [];
    var seen := Elements(filtered);
    for i := 0 to |filtered|
      invariant Distinct(kept) && forall u :: u in kept <==> u in filtered[..i] && !HasAncestorIn(us, u, seen)
      invariant KeptInOrder(filtered, i, kept)
    {
      assert filtered[..i + 1] == filtered[..i] + [filtered[i]];
      OneMoreInOrder(filtered, i, kept);
      var pruned := Pruned(us, filtered[i], seen);
      if !pruned {
        kept := kept + [filtered[i]];
      }
    }
    assert filtered[..|filtered|] == filtered;
    KeptIsInOrder(details, filtered, kept);
    if kept != [] { assert kept[0] in Governing(us, details); }
  }

  /** What is kept of the first `n` uses is kept in their order. */
  ghost predicate KeptInOrder(filtered: seq<Usage>, n: nat, kept: seq<Usage>)
    requires n <= |filtered|
  {
    forall a, b :: 0 <= a < b < |kept| ==> Precedes(filtered[..n], kept[a], kept[b])
  }

  lemma KeptIsInOrder(details: seq<Detail>, filtered: seq<Usage>, kept: seq<Usage>)
    requires InOrderSeen(details, filtered) && KeptInOrder(filtered, |filtered|, kept)
    ensures InOrderSeen(details, kept)
  {
    assert filtered[..|filtered|] == filtered;
    forall a, b | 0 <= a < b < |kept|
      ensures SeenBefore(details, kept[a], kept[b])
    {
      assert Precedes(filtered[..|filtered|], kept[a], kept[b]);
      var i, j :| 0 <= i < j < |filtered| && filtered[i] == kept[a] && filtered[j] == kept[b];
    }
  }

  lemma OneMoreInOrder(filtered: seq<Usage>, n: nat, kept: seq<Usage>)
    requires n < |filtered| && KeptInOrder(filtered, n, kept) && forall u :: u in kept ==> u in filtered[..n]
    ensures KeptInOrder(filtered, n + 1, kept) && KeptInOrder(filtered, n + 1, kept + [filtered[n]])
  {
    PrefixGrows(filtered, n);
    var more, kept' := filtered[..n + 1], kept + [filtered[n]];
    forall a, b | 0 <= a < b < |kept'|
      ensures Precedes(more, kept'[a], kept'[b])
    {
      if b < |kept| {
        assert Precedes(filtered[..n], kept[a], kept[b]);
        var i, j :| 0 <= i < j < n && filtered[..n][i] == kept[a] && filtered[..n][j] == kept[b];
        assert more[i] == kept[a] && more[j] == kept[b];
      } else {
        assert kept[a] in filtered[..n];
        var i :| 0 <= i < n && filtered[..n][i] == kept[a];
        assert more[i] == kept'[a] && more[n] == kept'[b];
      }
    }
    forall a, b | 0 <= a < b < |kept|
      ensures Precedes(more, kept[a], kept[b])
    {
      assert kept'[a] == kept[a] && kept'[b] == kept[b];
    }
  }

  /** No use that governs a key stands inside another one that does, and every use that was dropped stands inside one
      that was kept. */
  lemma GoverningIsOutermost(us: Usages, details: seq<Detail>, u: Usage)
    requires Enclosing(us) && (forall i :: 0 <= i < |details| ==> details[i].usage.Some?) && u in UsagesOf(details)
    ensures u in Governing(us, details) ==> forall p :: p in Governing(us, details) ==> !Encloses(us, p, u)
    ensures u !in Governing(us, details) ==> exists p :: p in Governing(us, details) && Encloses(us, p, u)
  {
    if u in Governing(us, details) {
      forall p | p in Governing(us, details) && Encloses(us, p, u) ensures false { EnclosedHasAncestor(us, p, u, UsagesOf(details)); }
    } else {
      var p := OutermostOf(us, u, UsagesOf(details));
    }
  }

  lemma {:induction false} EnclosedHasAncestor(us: Usages, p: Usage, u: Usage, s: set<Usage>)
    requires Enclosing(us) && Encloses(us, p, u) && p in s
    ensures HasAncestorIn(us, u, s)
    decreases us.depth(u)
  {
    if us.parentOf(u).value != p {
      EnclosedHasAncestor(us, p, us.parentOf(u).value, s);
    }
  }

  lemma {:induction false} EnclosesOnwards(us: Usages, q: Usage, p: Usage, u: Usage)
    requires Enclosing(us) && Encloses(us, q, p) && Encloses(us, p, u)
    ensures Encloses(us, q, u)
    decreases us.depth(u)
  {
    if us.parentOf(u).value != p {
      EnclosesOnwards(us, q, p, us.parentOf(u).value);
    }
  }

  lemma {:induction false} AncestorOf(us: Usages, u: Usage, s: set<Usage>) returns (p: Usage)
    requires Enclosing(us) && HasAncestorIn(us, u, s)
    ensures p in s && Encloses(us, p, u) && us.depth(p) < us.depth(u)
    decreases us.depth(u)
  {
    p := us.parentOf(u).value;
    if p !in s {
      var q := p;
      p := AncestorOf(us, q, s);
    }
  }

  lemma {:induction false} OutermostOf(us: Usages, u: Usage, s: set<Usage>) returns (p: Usage)
    requires Enclosing(us) && HasAncestorIn(us, u, s)
    ensures p in s && !HasAncestorIn(us, p, s) && Encloses(us, p, u)
    decreases us.depth(u)
  {
    p := AncestorOf(us, u, s);
    if HasAncestorIn(us, p, s) {
      var q := p;
      p := OutermostOf(us, q, s);
      EnclosesOnwards(us, p, q, u);
    }
  }

  // ----- the partition -----

  /** A deferred group: the uses that govern it and its fields, all details included. */
  datatype Group = Group(usages: seq<Usage>, fields: seq<Field>)

  /** The fields governed by exactly `k`, in order. */
  ghost function FieldsUnder(us: Usages, fields: seq<Field>, k: set<Usage>): seq<Field>
    requires Enclosing(us)
    decreases |fields|
  {
    if fields == [] then []
    else FieldsUnder(us, fields[..|fields| - 1], k)
         + if Governing(us, fields[|fields| - 1].details) == k then [fields[|fields| - 1]] else []
  }

  lemma UnderNext(us: Usages, fields: seq<Field>, i: nat, k: set<Usage>)
    requires Enclosing(us) && i < |fields|
    ensures FieldsUnder(us, fields[..i + 1], k) == FieldsUnder(us, fields[..i], k) + if Governing(us, fields[i].details) == k then [fields[i]] else []
  {
    assert fields[..i + 1][..i] == fields[..i];
  }

  /** Initial exactly the fields the parent's uses govern; one group for each other set of uses that governs some
      field, holding exactly the fields it governs. */
  ghost predicate Partitioned(us: Usages, fields: seq<Field>, parent: set<Usage>, initial: seq<Field>, groups: seq<Group>)
    requires Enclosing(us)
  {
    && initial == FieldsUnder(us, fields, parent)
    && (forall g :: 0 <= g < |groups| ==> GroupFits(us, fields, parent, groups[g]))
    && (forall g, h :: 0 <= g < h < |groups| ==> Elements(groups[g].usages) != Elements(groups[h].usages))
    && (forall f :: f in fields ==> Governing(us, f.details) == parent || HasGroup(groups, Governing(us, f.details)))
  }

  /** The groups come in the order of the first field each one's uses govern. */
  ghost predicate InOrderOpened(us: Usages, fields: seq<Field>, groups: seq<Group>)
    requires Enclosing(us)
  {
    forall g, h :: 0 <= g < h < |groups| ==> GovernsBefore(us, fields, Elements(groups[g].usages), Elements(groups[h].usages))
  }

  /** `k` governs some field that comes before every one `l` governs. */
  ghost predicate GovernsBefore(us: Usages, fields: seq<Field>, k: set<Usage>, l: set<Usage>)
    requires Enclosing(us)
  {
    exists i :: 0 <= i < |fields| && GovernsAt(us, fields, i, k, l)
  }

  ghost predicate GovernsAt(us: Usages, fields: seq<Field>, i: nat, k: set<Usage>, l: set<Usage>)
    requires Enclosing(us) && i < |fields|
  {
    Governing(us, fields[i].details) == k && forall j :: 0 <= j <= i ==> Governing(us, fields[j].details) != l
  }

  ghost predicate GroupFits(us: Usages, fields: seq<Field>, parent: set<Usage>, g: Group)
    requires Enclosing(us)
  {
    Distinct(g.usages) && Elements(g.usages) != parent && g.fields != [] && g.fields == FieldsUnder(us, fields, Elements(g.usages))
  }

  ghost predicate HasGroup(groups: seq<Group>, k: set<Usage>)
  {
    exists g :: 0 <= g < |groups| && Elements(groups[g].usages) == k
  }

  function AllFields(groups: seq<Group>): multiset<Field>
  {
    if groups == [] then multiset{} else AllFields(groups[..|groups| - 1]) + multiset(groups[|groups| - 1].fields)
  }

  lemma FieldAtTheEnd(all: multiset<Field>, fields: seq<Field>, f: Field)
    ensures all + multiset(fields + [f]) == all + multiset(fields) + multiset{f}
  {
  }

  lemma FieldInFront(all: multiset<Field>, fields: seq<Field>, f: Field)
    ensures all + multiset{f} + multiset(fields) == all + multiset(fields) + multiset{f}
  {
  }

  lemma FieldToInitial(initial: seq<Field>, all: multiset<Field>, f: Field)
    ensures multiset(initial + [f]) + all == multiset(initial) + all + multiset{f}
  {
  }

  lemma FieldToGroups(initial: multiset<Field>, all: multiset<Field>, all': multiset<Field>, f: Field)
    requires all' == all + multiset{f}
    ensures initial + all' == initial + all + multiset{f}
  {
  }

  lemma {:induction false} OneGroupGrows(groups: seq<Group>, g: nat, grown: Group, f: Field)
    requires g < |groups| && grown.fields == groups[g].fields + [f]
    ensures AllFields(groups[g := grown]) == AllFields(groups) + multiset{f}
    decreases |groups|
  {
    var last := |groups| - 1;
    var rest := groups[..last];
    assert groups == rest + [groups[last]];
    OneGroupMore(rest, groups[last]);
    if g == last {
      assert groups[g := grown] == rest + [grown];
      OneGroupMore(rest, grown);
      FieldAtTheEnd(AllFields(rest), groups[last].fields, f);
    } else {
      assert groups[g := grown] == rest[g := grown] + [groups[last]];
      OneGroupMore(rest[g := grown], groups[last]);
      OneGroupGrows(rest, g, grown, f);
      FieldInFront(AllFields(rest), groups[last].fields, f);
    }
  }

  lemma OneGroupMore(groups: seq<Group>, g: Group)
    ensures AllFields(groups + [g]) == AllFields(groups) + multiset(g.fields)
  {
    assert (groups + [g])[..|groups|] == groups;
  }

  method FindGroup(groups: seq<Group>, k: set<Usage>) returns (g: nat)
    ensures g <= |groups| && (g < |groups| <==> HasGroup(groups, k)) && (g < |groups| ==> Elements(groups[g].usages) == k)
  {
    g := 0;
    while g < |groups| && Elements(groups[g].usages) != k
      invariant g <= |groups| && forall h :: 0 <= h < g ==> Elements(groups[h].usages) != k
      decreases |groups| - g
    {
      g := g + 1;
    }
  }

  /** The groups once `f`, governed by `kept`, has joined its group, opened at the end when there is none. */
  function WithField(groups: seq<Group>, kept: seq<Usage>, f: Field, g: nat): seq<Group>
    requires g <= |groups|
  {
    if g < |groups| then groups[g := Group(groups[g].usages, groups[g].fields + [f])] else groups + [Group(kept, [f])]
  }

  ghost predicate IsPlace(groups: seq<Group>, kept: seq<Usage>, g: nat)
  {
    g <= |groups| && (g < |groups| <==> HasGroup(groups, Elements(kept))) && (g < |groups| ==> Elements(groups[g].usages) == Elements(kept))
  }

  lemma FieldFits(us: Usages, fields: seq<Field>, i: nat, parent: set<Usage>, initial: seq<Field>, groups: seq<Group>, kept: seq<Usage>, g: nat, h: nat)
    requires Enclosing(us) && i < |fields| && Partitioned(us, fields[..i], parent, initial, groups)
    requires Distinct(kept) && Elements(kept) == Governing(us, fields[i].details) && Elements(kept) != parent && IsPlace(groups, kept, g)
    requires h < |WithField(groups, kept, fields[i], g)|
    ensures GroupFits(us, fields[..i + 1], parent, WithField(groups, kept, fields[i], g)[h])
  {
    var k := Elements(WithField(groups, kept, fields[i], g)[h].usages);
    UnderNext(us, fields, i, k);
    if h < |groups| {
      assert GroupFits(us, fields[..i], parent, groups[h]);
      assert Elements(groups[h].usages) == Elements(kept) ==> HasGroup(groups, Elements(kept));
    } else {
      NothingUnder(us, fields[..i], parent, groups, Elements(kept));
    }
  }

  lemma FieldCovers(groups: seq<Group>, kept: seq<Usage>, f: Field, g: nat)
    requires IsPlace(groups, kept, g)
    ensures HasGroup(WithField(groups, kept, f, g), Elements(kept))
    ensures forall k :: HasGroup(groups, k) ==> HasGroup(WithField(groups, kept, f, g), k)
  {
    var groups' := WithField(groups, kept, f, g);
    assert Elements(groups'[g].usages) == Elements(kept);
    forall k | HasGroup(groups, k) ensures HasGroup(groups', k) {
      var h :| 0 <= h < |groups| && Elements(groups[h].usages) == k;
      assert Elements(groups'[h].usages) == k;
    }
  }

  lemma FieldKeepsApart(groups: seq<Group>, kept: seq<Usage>, f: Field, g: nat)
    requires IsPlace(groups, kept, g) && forall a, b :: 0 <= a < b < |groups| ==> Elements(groups[a].usages) != Elements(groups[b].usages)
    ensures var groups' := WithField(groups, kept, f, g);
            forall a, b :: 0 <= a < b < |groups'| ==> Elements(groups'[a].usages) != Elements(groups'[b].usages)
  {
    var groups' := WithField(groups, kept, f, g);
    forall a, b | 0 <= a < b < |groups'|
      ensures Elements(groups'[a].usages) != Elements(groups'[b].usages)
    {
      assert a < |groups| && Elements(groups[a].usages) == Elements(kept) ==> HasGroup(groups, Elements(kept));
    }
  }

  lemma StillGoverns(us: Usages, fields: seq<Field>, i: nat, k: set<Usage>, l: set<Usage>, a: nat)
    requires Enclosing(us) && a < i < |fields| && GovernsAt(us, fields[..i], a, k, l)
    ensures GovernsAt(us, fields[..i + 1], a, k, l)
  {
    var before, more := fields[..i], fields[..i + 1];
    assert more[a] == before[a];
    forall j | 0 <= j <= a ensures Governing(us, more[j].details) != l { assert more[j] == before[j]; }
  }

  lemma StillBefore(us: Usages, fields: seq<Field>, i: nat, k: set<Usage>, l: set<Usage>)
    requires Enclosing(us) && i < |fields| && GovernsBefore(us, fields[..i], k, l)
    ensures GovernsBefore(us, fields[..i + 1], k, l)
  {
    var a :| 0 <= a < i && GovernsAt(us, fields[..i], a, k, l);
    StillGoverns(us, fields, i, k, l, a);
  }

  lemma StillInOrder(us: Usages, fields: seq<Field>, i: nat, groups: seq<Group>)
    requires Enclosing(us) && i < |fields| && InOrderOpened(us, fields[..i], groups)
    ensures InOrderOpened(us, fields[..i + 1], groups)
  {
    forall g, h | 0 <= g < h < |groups|
      ensures GovernsBefore(us, fields[..i + 1], Elements(groups[g].usages), Elements(groups[h].usages))
    {
      StillBefore(us, fields, i, Elements(groups[g].usages), Elements(groups[h].usages));
    }
  }

  lemma {:induction false} SomeUnder(us: Usages, fields: seq<Field>, k: set<Usage>) returns (i: nat)
    requires Enclosing(us) && FieldsUnder(us, fields, k) != []
    ensures i < |fields| && Governing(us, fields[i].details) == k
    decreases |fields|
  {
    var last := |fields| - 1;
    if Governing(us, fields[last].details) == k { return last; }
    i := SomeUnder(us, fields[..last], k);
  }

  /** A group opened by this field comes after every one that governs an earlier field. */
  lemma OpensLater(us: Usages, fields: seq<Field>, i: nat, groups: seq<Group>, g: Group, l: set<Usage>)
    requires Enclosing(us) && i < |fields| && g.fields != [] && g.fields == FieldsUnder(us, fields[..i], Elements(g.usages))
    requires Elements(g.usages) != l && forall j :: 0 <= j < i ==> Governing(us, fields[j].details) != l
    ensures GovernsBefore(us, fields[..i + 1], Elements(g.usages), l)
  {
    var a := SomeUnder(us, fields[..i], Elements(g.usages));
    var more := fields[..i + 1];
    assert more[a] == fields[..i][a];
    forall j | 0 <= j <= a ensures Governing(us, more[j].details) != l { assert more[j] == fields[j]; }
    assert GovernsAt(us, more, a, Elements(g.usages), l);
  }

  lemma FieldKeepsOrder(us: Usages, fields: seq<Field>, i: nat, parent: set<Usage>, initial: seq<Field>, groups: seq<Group>, kept: seq<Usage>, g: nat)
    requires Enclosing(us) && i < |fields| && Partitioned(us, fields[..i], parent, initial, groups) && InOrderOpened(us, fields[..i], groups)
    requires Elements(kept) != parent && IsPlace(groups, kept, g)
    ensures InOrderOpened(us, fields[..i + 1], WithField(groups, kept, fields[i], g))
  {
    var groups' := WithField(groups, kept, fields[i], g);
    StillInOrder(us, fields, i, groups);
    forall a, b | 0 <= a < b < |groups'|
      ensures GovernsBefore(us, fields[..i + 1], Elements(groups'[a].usages), Elements(groups'[b].usages))
    {
      if b < |groups| {
        assert GovernsBefore(us, fields[..i + 1], Elements(groups[a].usages), Elements(groups[b].usages));
      } else {
        NoFieldBefore(us, fields, i, parent, initial, groups, Elements(kept));
        assert GroupFits(us, fields[..i], parent, groups[a]);
        assert !HasGroup(groups, Elements(kept)) && Elements(groups[a].usages) != Elements(kept);
        OpensLater(us, fields, i, groups, groups[a], Elements(kept));
      }
    }
  }

  lemma NoFieldBefore(us: Usages, fields: seq<Field>, i: nat, parent: set<Usage>, initial: seq<Field>, groups: seq<Group>, k: set<Usage>)
    requires Enclosing(us) && i < |fields| && Partitioned(us, fields[..i], parent, initial, groups) && k != parent && !HasGroup(groups, k)
    ensures forall j :: 0 <= j < i ==> Governing(us, fields[j].details) != k
  {
    forall j | 0 <= j < i ensures Governing(us, fields[j].details) != k { assert fields[..i][j] == fields[j] && fields[j] in fields[..i]; }
  }

  /** One field joins its place. */
  lemma FieldJoins(us: Usages, fields: seq<Field>, i: nat, parent: set<Usage>, initial: seq<Field>, groups: seq<Group>, kept: seq<Usage>, g: nat)
    requires Enclosing(us) && i < |fields| && Partitioned(us, fields[..i], parent, initial, groups)
    requires Distinct(kept) && Elements(kept) == Governing(us, fields[i].details) && Elements(kept) != parent && IsPlace(groups, kept, g)
    ensures Partitioned(us, fields[..i + 1], parent, initial, WithField(groups, kept, fields[i], g))
  {
    var groups' := WithField(groups, kept, fields[i], g);
    UnderNext(us, fields, i, parent);
    forall h | 0 <= h < |groups'| ensures GroupFits(us, fields[..i + 1], parent, groups'[h]) { FieldFits(us, fields, i, parent, initial, groups, kept, g, h); }
    FieldKeepsApart(groups, kept, fields[i], g);
    FieldCovers(groups, kept, fields[i], g);
    forall f | f in fields[..i + 1] ensures Governing(us, f.details) == parent || HasGroup(groups', Governing(us, f.details)) {
      PrefixGrows(fields, i);
      assert f in fields[..i] || f == fields[i];
    }
  }

  lemma {:induction false} NothingUnder(us: Usages, fields: seq<Field>, parent: set<Usage>, groups: seq<Group>, k: set<Usage>)
    requires Enclosing(us) && k != parent && !HasGroup(groups, k)
    requires forall f :: f in fields ==> Governing(us, f.details) == parent || HasGroup(groups, Governing(us, f.details))
    ensures FieldsUnder(us, fields, k) == []
    decreases |fields|
  {
    if fields != [] {
      assert fields[|fields| - 1] in fields;
      NothingUnder(us, fields[..|fields| - 1], parent, groups, k);
    }
  }

  // ----- the partition in plain terms -----

  /** Exactly the uses in `k` govern the field. */
  ghost predicate GovernedBy(us: Usages, f: Field, k: set<Usage>)
    requires Enclosing(us)
  {
    forall u :: u in k <==> Governs(us, f.details, u)
  }

  lemma GovernedIff(us: Usages, f: Field, k: set<Usage>)
    requires Enclosing(us)
    ensures GovernedBy(us, f, k) <==> Governing(us, f.details) == k
  {
    forall u ensures u in Governing(us, f.details) <==> Governs(us, f.details, u) { GoverningMeans(us, f.details, u); }
  }

  lemma {:induction false} InFieldsUnder(us: Usages, fields: seq<Field>, k: set<Usage>, f: Field)
    requires Enclosing(us)
    ensures f in FieldsUnder(us, fields, k) <==> f in fields && GovernedBy(us, f, k)
    decreases |fields|
  {
    if fields == [] {
    } else {
      var last := |fields| - 1;
      InFieldsUnder(us, fields[..last], k, f);
      GovernedIff(us, fields[last], k);
      assert fields == fields[..last] + [fields[last]];
    }
  }

  /** Where each field goes: to `initial` when exactly the parent's uses govern it, and to the group of those that do otherwise. */
  ghost predicate PlacedByUse(us: Usages, fields: seq<Field>, parent: set<Usage>, initial: seq<Field>, groups: seq<Group>)
    requires Enclosing(us)
  {
    && (forall f :: f in initial <==> f in fields && GovernedBy(us, f, parent))
    && (forall g, f :: 0 <= g < |groups| ==> (f in groups[g].fields <==> f in fields && GovernedBy(us, f, Elements(groups[g].usages))))
  }

  lemma PartitionPlaces(us: Usages, fields: seq<Field>, parent: set<Usage>, initial: seq<Field>, groups: seq<Group>)
    requires Enclosing(us) && Partitioned(us, fields, parent, initial, groups)
    ensures PlacedByUse(us, fields, parent, initial, groups)
  {
    forall f ensures f in initial <==> f in fields && GovernedBy(us, f, parent) { InFieldsUnder(us, fields, parent, f); }
    forall g, f | 0 <= g < |groups|
      ensures f in groups[g].fields <==> f in fields && GovernedBy(us, f, Elements(groups[g].usages))
    {
      assert GroupFits(us, fields, parent, groups[g]);
      InFieldsUnder(us, fields, Elements(groups[g].usages), f);
    }
  }

  /** A field with a selection that is not deferred: executed now under no parent use, and otherwise in the group no use governs. */
  ghost predicate UndeferredPlace(f: Field, parent: set<Usage>, initial: seq<Field>, groups: seq<Group>)
  {
    if parent == {} then f in initial && forall g :: 0 <= g < |groups| ==> f !in groups[g].fields
    else f !in initial && exists g :: 0 <= g < |groups| && groups[g].usages == [] && f in groups[g].fields
  }

  lemma FirstIsElement(usages: seq<Usage>)
    ensures usages != [] ==> usages[0] in Elements(usages)
  {
  }

  lemma UndeferredIsPlaced(us: Usages, fields: seq<Field>, parent: set<Usage>, initial: seq<Field>, groups: seq<Group>, f: Field)
    requires Enclosing(us) && Partitioned(us, fields, parent, initial, groups) && f in fields && HasUndeferred(f.details)
    ensures UndeferredPlace(f, parent, initial, groups)
  {
    PartitionPlaces(us, fields, parent, initial, groups);
    UngovernedIff(us, f.details);
    GovernedIff(us, f, parent);
    forall g | 0 <= g < |groups| ensures Elements(groups[g].usages) != parent && (f in groups[g].fields <==> Elements(groups[g].usages) == {})
    {
      assert GroupFits(us, fields, parent, groups[g]);
      GovernedIff(us, f, Elements(groups[g].usages));
    }
    if parent != {} {
      assert HasGroup(groups, {});
      var g :| 0 <= g < |groups| && Elements(groups[g].usages) == {};
      FirstIsElement(groups[g].usages);
    }
  }

  /** `build_execution_plan_groups`: every response key lands with all its details in exactly one place. */
  method BuildExecutionPlanGroups(us: Usages, fields: seq<Field>, parent: set<Usage>) returns (initial: seq<Field>, groups: seq<Group>)
    requires Enclosing(us)
    ensures Partitioned(us, fields, parent, initial, groups) && InOrderOpened(us, fields, groups)
    ensures multiset(initial) + AllFields(groups) == multiset(fields)
    ensures PlacedByUse(us, fields, parent, initial, groups)
    ensures forall f :: f in fields && HasUndeferred(f.details) ==> UndeferredPlace(f, parent, initial, groups)
  {
    initial, groups := [], [];
    for i := 0 to |fields|
      invariant Partitioned(us, fields[..i], parent, initial, groups) && InOrderOpened(us, fields[..i], groups)
      invariant multiset(initial) + AllFields(groups) == multiset(fields[..i])
    {
      initial, groups := PlaceField(us, fields, i, parent, initial, groups);
      OneFieldMore(fields, i);
    }
    assert fields[..|fields|] == fields;
    PartitionPlaces(us, fields, parent, initial, groups);
    forall f | f in fields && HasUndeferred(f.details) ensures UndeferredPlace(f, parent, initial, groups) {
      UndeferredIsPlaced(us, fields, parent, initial, groups, f);
    }
  }

  lemma OneFieldMore(fields: seq<Field>, i: nat)
    requires i < |fields|
    ensures multiset(fields[..i + 1]) == multiset(fields[..i]) + multiset{fields[i]}
  {
    assert fields[..i + 1] == fields[..i] + [fields[i]];
  }

  method PlaceField(us: Usages, fields: seq<Field>, i: nat, parent: set<Usage>, initial: seq<Field>, groups: seq<Group>)
    returns (initial': seq<Field>, groups': seq<Group>)
    requires Enclosing(us) && i < |fields| && Partitioned(us, fields[..i], parent, initial, groups) && InOrderOpened(us, fields[..i], groups)
    ensures Partitioned(us, fields[..i + 1], parent, initial', groups') && InOrderOpened(us, fields[..i + 1], groups')
    ensures multiset(initial') + AllFields(groups') == multiset(initial) + AllFields(groups) + multiset{fields[i]}
  {
    initial', groups' := initial, groups;
    var kept := GetFilteredDeferUsageSet(us, fields[i].details);
    if Elements(kept) == parent {
      initial' := initial + [fields[i]];
      InitialJoins(us, fields, i, parent, initial, groups);
      StillInOrder(us, fields, i, groups);
      FieldToInitial(initial, AllFields(groups), fields[i]);
      return;
    }
    var g := FindGroup(groups, Elements(kept));
    groups' := WithField(groups, kept, fields[i], g);
    if g < |groups| {
      OneGroupGrows(groups, g, groups'[g], fields[i]);
    } else {
      OneGroupMore(groups, groups'[g]);
    }
    FieldToGroups(multiset(initial), AllFields(groups), AllFields(groups'), fields[i]);
    FieldJoins(us, fields, i, parent, initial, groups, kept, g);
    FieldKeepsOrder(us, fields, i, parent, initial, groups, kept, g);
  }

  lemma InitialJoins(us: Usages, fields: seq<Field>, i: nat, parent: set<Usage>, initial: seq<Field>, groups: seq<Group>)
    requires Enclosing(us) && i < |fields| && Partitioned(us, fields[..i], parent, initial, groups) && Governing(us, fields[i].details) == parent
    ensures Partitioned(us, fields[..i + 1], parent, initial + [fields[i]], groups)
  {
    UnderNext(us, fields, i, parent);
    forall h | 0 <= h < |groups|
      ensures GroupFits(us, fields[..i + 1], parent, groups[h])
    {
      UnderNext(us, fields, i, Elements(groups[h].usages));
      assert GroupFits(us, fields[..i], parent, groups[h]);
    }
  }
}
