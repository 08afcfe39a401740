/** The plan cache: a bounded LRU of buckets, each a short most-recently-validated list of plan variants, shared by
    threads whose gets take the lock twice. */
module Cache {
  import opened Wrappers
  import opened Sequences

  const MAX_VARIANTS_PER_KEY: nat := 8

  /** A cached plan: which object it is, the schema instance and the constraint set it carries. */
  datatype Candidate = Candidate(plan: nat, schema: nat, constraints: seq<nat>)

  predicate SameVariant(a: Candidate, b: Candidate)
  {
    a.schema == b.schema && a.constraints == b.constraints
  }

  type Bucket = seq<Candidate>

  ghost predicate VariantsDiffer(b: Bucket)
  {
    forall i, j :: 0 <= i < j < |b| ==> !SameVariant(b[i], b[j])
  }

  /** No two candidates are interchangeable, and the list is neither empty nor past its bound. */
  ghost predicate ValidBucket(b: Bucket)
  {
    0 < |b| <= MAX_VARIANTS_PER_KEY && VariantsDiffer(b)
  }

  /** `b` without its first variant like `c`. */
  function WithoutVariant(b: Bucket, c: Candidate): (r: Bucket)
    ensures |r| <= |b|
    ensures forall x :: x in r ==> x in b
  {
    if b == [] then [] else if SameVariant(b[0], c) then b[1..] else [b[0]] + WithoutVariant(b[1..], c)
  }

  lemma DifferCons(c: Candidate, b: Bucket)
    requires VariantsDiffer(b) && forall x :: x in b ==> !SameVariant(c, x)
    ensures VariantsDiffer([c] + b)
  {
    var r := [c] + b;
    forall i, j | 0 <= i < j < |r| ensures !SameVariant(r[i], r[j]) { assert r[j] == b[j - 1] && r[j] in b; }
  }

  lemma DifferRest(b: Bucket)
    requires VariantsDiffer(b) && b != []
    ensures VariantsDiffer(b[1..]) && forall x :: x in b[1..] ==> !SameVariant(b[0], x)
  {
    forall i, j | 0 <= i < j < |b[1..]| ensures !SameVariant(b[1..][i], b[1..][j]) { assert b[1..][i] == b[i + 1] && b[1..][j] == b[j + 1]; }
  }

  lemma {:induction false} WithoutDiffers(b: Bucket, c: Candidate)
    requires VariantsDiffer(b)
    ensures VariantsDiffer(WithoutVariant(b, c))
    ensures forall x :: x in WithoutVariant(b, c) <==> x in b && !SameVariant(x, c)
    ensures c in b ==> |WithoutVariant(b, c)| == |b| - 1
  {
    if b != [] {
      DifferRest(b);
      if SameVariant(b[0], c) {
        forall x | x in b && !SameVariant(x, c) ensures x in b[1..] {}
        forall x | x in b[1..] ensures x in b && !SameVariant(x, c) {}
      } else {
        WithoutDiffers(b[1..], c);
        DifferCons(b[0], WithoutVariant(b[1..], c));
      }
    }
  }

  /** `b` with `c` moved to the front, if it is still there. */
  function Hoisted(b: Bucket, c: Candidate): Bucket
  {
    if c in b then [c] + WithoutVariant(b, c) else b
  }

  lemma HoistedIsValid(b: Bucket, c: Candidate)
    requires ValidBucket(b)
    ensures ValidBucket(Hoisted(b, c)) && |Hoisted(b, c)| == |b| && forall x :: x in Hoisted(b, c) <==> x in b
  {
    if c in b {
      WithoutDiffers(b, c);
      DifferCons(c, WithoutVariant(b, c));
      forall x | x in b && SameVariant(x, c)
        ensures x == c
      {
        var i :| 0 <= i < |b| && b[i] == x;
        var j :| 0 <= j < |b| && b[j] == c;
        assert i == j || i < j || j < i;
      }
    }
  }

  lemma PutIsValid(b: Bucket, c: Candidate)
    requires b == [] || ValidBucket(b)
    ensures var r := [c] + WithoutVariant(b, c); ValidBucket(Capped(r))
  {
    assert VariantsDiffer(b);
    WithoutDiffers(b, c);
    DifferCons(c, WithoutVariant(b, c));
  }

  /** A bucket past its bound loses its least recently validated tail. */
  function Capped(b: Bucket): Bucket
  {
    if |b| > MAX_VARIANTS_PER_KEY then b[..MAX_VARIANTS_PER_KEY] else b
  }

  predicate Overflows(was: Bucket, c: Candidate)
  {
    |WithoutVariant(was, c)| >= MAX_VARIANTS_PER_KEY
  }

  // ----- the bucket operations in plain terms -----

  /** `rest` is `b` less the one candidate at `i`. */
  ghost predicate LessOne(b: Bucket, i: int, rest: Bucket)
  {
    0 <= i < |b| && rest == b[..i] + b[i + 1..]
  }

  /** What is left of `b` once the first variant of the same schema instance and constraints is out. */
  ghost predicate LeavesOut(b: Bucket, c: Candidate, rest: Bucket)
  {
    if forall x :: x in b ==> x.schema != c.schema || x.constraints != c.constraints then rest == b
    else exists i :: LessOne(b, i, rest) && b[i].schema == c.schema && b[i].constraints == c.constraints
                     && forall j :: 0 <= j < i ==> b[j].schema != c.schema || b[j].constraints != c.constraints
  }

  /** The new variant comes first, the others behind it as they were, and of more than eight the tail is dropped. */
  ghost predicate PutInFront(was: Bucket, c: Candidate, now: Bucket)
  {
    exists rest :: LeavesOut(was, c, rest) && now == [c] + if |rest| < 8 then rest else rest[..7]
  }

  /** The confirmed candidate comes first, the others behind it as they were; one that is gone changes nothing. */
  ghost predicate MovedInFront(was: Bucket, c: Candidate, now: Bucket)
  {
    if c !in was then now == was
    else exists i :: 0 <= i < |was| && was[i] == c && now == [c] + was[..i] + was[i + 1..]
  }

  lemma {:induction false} WithoutLeavesOut(b: Bucket, c: Candidate) returns (i: nat)
    ensures i <= |b| && (forall j :: 0 <= j < i ==> !SameVariant(b[j], c)) && (i < |b| ==> SameVariant(b[i], c))
    ensures WithoutVariant(b, c) == if i < |b| then b[..i] + b[i + 1..] else b
    ensures LeavesOut(b, c, WithoutVariant(b, c))
  {
    i := FirstVariant(b, c);
    WithoutFirst(b, c, i);
    if i < |b| {
      assert b[i] in b && LessOne(b, i, WithoutVariant(b, c));
    }
  }

  lemma FirstVariant(b: Bucket, c: Candidate) returns (i: nat)
    ensures i <= |b| && (forall j :: 0 <= j < i ==> !SameVariant(b[j], c)) && (i < |b| ==> SameVariant(b[i], c))
  {
    i := 0;
    while i < |b| && !SameVariant(b[i], c)
      invariant i <= |b| && forall j :: 0 <= j < i ==> !SameVariant(b[j], c)
    {
      i := i + 1;
    }
  }

  lemma {:induction false} WithoutFirst(b: Bucket, c: Candidate, i: nat)
    requires i <= |b| && (forall j :: 0 <= j < i ==> !SameVariant(b[j], c)) && (i < |b| ==> SameVariant(b[i], c))
    ensures WithoutVariant(b, c) == if i < |b| then b[..i] + b[i + 1..] else b
    decreases |b|
  {
    if b == [] {
    } else if i == 0 {
      assert b[..0] + b[1..] == b[1..];
    } else {
      WithoutFirst(b[1..], c, i - 1);
      assert b == [b[0]] + b[1..];
      if i < |b| { assert [b[0]] + (b[1..][..i - 1] + b[1..][i..]) == b[..i] + b[i + 1..]; }
    }
  }

  lemma CappedIs(c: Candidate, rest: Bucket)
    ensures Capped([c] + rest) == [c] + if |rest| < 8 then rest else rest[..7]
  {
    if |rest| >= 8 { assert ([c] + rest)[..8] == [c] + rest[..7]; }
  }

  lemma PutIsInFront(was: Bucket, c: Candidate)
    ensures PutInFront(was, c, Capped([c] + WithoutVariant(was, c)))
  {
    var _ := WithoutLeavesOut(was, c);
    CappedIs(c, WithoutVariant(was, c));
  }

  lemma HoistedIsInFront(was: Bucket, c: Candidate)
    requires VariantsDiffer(was)
    ensures MovedInFront(was, c, Hoisted(was, c))
  {
    if c in was {
      var i := WithoutLeavesOut(was, c);
      var j :| 0 <= j < |was| && was[j] == c;
      assert SameVariant(was[j], c) && i <= j;
      assert [c] + (was[..i] + was[i + 1..]) == [c] + was[..i] + was[i + 1..];
    }
  }

  /** `c` is the first candidate of the bucket the validator accepts. */
  ghost predicate FirstValidated(b: Bucket, validate: Candidate -> bool, c: Candidate)
  {
    validate(c) && exists i :: 0 <= i < |b| && b[i] == c && forall j :: 0 <= j < i ==> !validate(b[j])
  }

  datatype Key = Key(text: string)

  function Without(keys: seq<Key>, k: Key): (r: seq<Key>)
    ensures k !in keys ==> r == keys
    ensures forall x :: x in r ==> x in keys
  {
    if keys == [] then [] else if keys[0] == k then keys[1..] else [keys[0]] + Without(keys[1..], k)
  }

  lemma {:induction false} WithoutIsDistinct(keys: seq<Key>, k: Key)
    requires Distinct(keys)
    ensures Distinct(Without(keys, k)) && k !in Without(keys, k)
    ensures forall x :: x in Without(keys, k) <==> x in keys && x != k
    ensures |Without(keys, k)| == if k in keys then |keys| - 1 else |keys|
  {
    if keys != [] {
      DistinctRest(keys);
      WithoutIsDistinct(keys[1..], k);
      if keys[0] != k {
        DistinctCons(keys[0], Without(keys[1..], k));
      }
    }
  }

  lemma {:induction false} WithoutConcat(a: seq<Key>, b: seq<Key>, k: Key)
    ensures Without(a + b, k) == if k in a then Without(a, k) + b else a + Without(b, k)
  {
    if a == [] {
      assert a + b == b;
    } else {
      ConsConcat(a, a[0], a[1..], b);
      if a[0] != k {
        WithoutConcat(a[1..], b, k);
        if k in a {
          Cons(a[0], Without(a[1..], k), b);
        } else {
          ConsConcat(a, a[0], a[1..], Without(b, k));
        }
      }
    }
  }

  lemma ConsConcat(a: seq<Key>, head: Key, rest: seq<Key>, b: seq<Key>)
    requires a != [] && head == a[0] && rest == a[1..]
    ensures a + b == [head] + (rest + b) && (a + b)[0] == head && (a + b)[1..] == rest + b
  {
  }

  lemma Cons(head: Key, rest: seq<Key>, b: seq<Key>)
    ensures ([head] + rest) + b == [head] + (rest + b)
  {
  }

  lemma DistinctParts(a: seq<Key>, b: seq<Key>)
    requires Distinct(a + b)
    ensures Distinct(a) && Distinct(b) && forall k :: k in b ==> k !in a
  {
    forall i, j | 0 <= i < j < |a| ensures a[i] != a[j] { assert (a + b)[i] != (a + b)[j]; }
    forall i, j | 0 <= i < j < |b| ensures b[i] != b[j] { assert (a + b)[|a| + i] != (a + b)[|a| + j]; }
    forall i, j | 0 <= i < |a| && 0 <= j < |b| ensures a[i] != b[j] { assert (a + b)[i] != (a + b)[|a| + j]; }
  }

  /** A held key moved to the end of the held keys is moved to the end of all. */
  lemma MovedToEnd(older: seq<Key>, keys: seq<Key>, k: Key)
    requires Distinct(older + keys) && k in keys
    ensures older + (Without(keys, k) + [k]) == Without(older + keys, k) + [k]
    ensures Distinct(older + (Without(keys, k) + [k])) && |Without(keys, k) + [k]| == |keys|
    ensures forall x :: x in Without(keys, k) + [k] <==> x in keys
  {
    DistinctParts(older, keys);
    WithoutConcat(older, keys, k);
    WithoutIsDistinct(keys, k);
    DistinctMove(older, keys, k);
  }

  lemma DistinctMove(older: seq<Key>, keys: seq<Key>, k: Key)
    requires Distinct(older + keys)
    ensures Distinct(Without(older + keys, k) + [k])
  {
    var all := Without(older + keys, k);
    WithoutIsDistinct(older + keys, k);
    forall i, j | 0 <= i < j < |all + [k]| ensures (all + [k])[i] != (all + [k])[j] {}
  }

  /** One thread's section under the lock, as another thread may run it at any time. */
  datatype Section = Snapshotting(key: Key) | Confirming(key: Key, candidate: Candidate) | Missing | Putting(key: Key, value: Candidate) | Clearing

  /** How many of these sections confirm a hit, count a miss, or begin a get. */
  ghost function Confirmations(sections: seq<Section>): nat
    decreases |sections|
  {
    if sections == [] then 0
    else Confirmations(sections[..|sections| - 1]) + if sections[|sections| - 1].Confirming? then 1 else 0
  }

  ghost function Misses(sections: seq<Section>): nat
    decreases |sections|
  {
    if sections == [] then 0
    else Misses(sections[..|sections| - 1]) + if sections[|sections| - 1].Missing? then 1 else 0
  }

  ghost function Snapshots(sections: seq<Section>): nat
    decreases |sections|
  {
    if sections == [] then 0
    else Snapshots(sections[..|sections| - 1]) + if sections[|sections| - 1].Snapshotting? then 1 else 0
  }

  class PlanCache {
    const maxEntries: nat
    /** The keys, least recently used first. */
    var keys: seq<Key>
    var buckets: map<Key, Bucket>
    var hits: nat
    var misses: nat
    var evictions: nat
    /** The keys evicted since the last clear, by their last touch, oldest first. */
    ghost var older: seq<Key>

    ghost predicate Valid()
      reads this
    {
      && 1 <= maxEntries && |keys| <= maxEntries && buckets.Keys == Elements(keys)
      && (forall k :: k in buckets ==> ValidBucket(buckets[k]))
      && Distinct(older + keys) && (older != [] ==> |keys| == maxEntries)
    }

    /** Every key touched since the last clear, by its last touch; the keys held are the tail of this. */
    ghost function Recency(): seq<Key>
      reads this
    {
      older + keys
    }

    constructor (maxEntries: nat)
      requires 1 <= maxEntries
      ensures Valid() && this.maxEntries == maxEntries && keys == [] && Recency() == []
    {
      this.maxEntries, keys, buckets, hits, misses, evictions := maxEntries, [], map[], 0, 0, 0;
      older := [];
    }

    /** The first section of a get: an absent key is a miss, a present one is touched and its bucket copied. */
    method Snapshot(key: Key) returns (bucket: Option<Bucket>)
      requires Valid()
      modifies this
      ensures Valid() && buckets == old(buckets)
      ensures bucket == if key in old(buckets) then Some(old(buckets)[key]) else None
      ensures bucket.Some? ==> Recency() == Without(old(Recency()), key) + [key] && hits == old(hits) && misses == old(misses)
      ensures bucket.None? ==> Recency() == old(Recency()) && hits == old(hits) && misses == old(misses) + 1
    {
      if key !in buckets {
        misses := misses + 1;
        return None;
      }
      bucket := Some(buckets[key]);
      TouchPresent(key);
    }

    /** `move_to_end` of a key that is present. */
    method TouchPresent(key: Key)
      requires Valid() && key in keys
      modifies `keys
      ensures Valid() && Recency() == Without(old(Recency()), key) + [key] && Elements(keys) == Elements(old(keys)) && |keys| == old(|keys|)
    {
      MovedToEnd(older, keys, key);
      keys := Without(keys, key) + [key];
    }

    /** The last section of a hit: the candidate is moved to its bucket's front if it is still there. */
    method Confirm(key: Key, candidate: Candidate)
      requires Valid()
      modifies this
      ensures Valid() && Recency() == old(Recency()) && keys == old(keys)
      ensures hits == old(hits) + 1 && misses == old(misses)
      ensures buckets == if key in old(buckets) then old(buckets)[key := Hoisted(old(buckets)[key], candidate)] else old(buckets)
      ensures key in old(buckets) ==> MovedInFront(old(buckets)[key], candidate, buckets[key])
    {
      if key in buckets {
        HoistedIsValid(buckets[key], candidate);
        HoistedIsInFront(buckets[key], candidate);
        buckets := buckets[key := Hoisted(buckets[key], candidate)];
      }
      hits := hits + 1;
    }

    /** The last section of a get none of whose candidates validated. */
    method CountMiss()
      requires Valid()
      modifies this
      ensures Valid() && Recency() == old(Recency()) && buckets == old(buckets)
      ensures hits == old(hits) && misses == old(misses) + 1
    {
      misses := misses + 1;
    }

    /** Prepends a variant, replacing the interchangeable one, and evicts past both bounds; each tail dropped and each key that
        leaves is counted. */
    method Put(key: Key, value: Candidate)
      requires Valid()
      modifies this
      ensures Valid() && Recency() == Without(old(Recency()), key) + [key]
      ensures hits == old(hits) && misses == old(misses)
      ensures key in buckets && buckets[key] == Capped([value] + WithoutVariant(BucketIn(old(buckets), key), value))
      ensures PutInFront(BucketIn(old(buckets), key), value, buckets[key])
      ensures OnlyAdded(old(buckets), buckets, key)
      ensures evictions + |keys| == old(evictions) + old(|keys|) + (if key in old(buckets) then 0 else 1)
                                    + if Overflows(BucketIn(old(buckets), key), value) then 1 else 0
    {
      var bucket := BucketIn(buckets, key);
      PutIsValid(bucket, value);
      PutIsInFront(bucket, value);
      if Overflows(bucket, value) {
        evictions := evictions + 1;
      }
      Store(key, Capped([value] + WithoutVariant(bucket, value)));
    }

    /** The bucket takes its key's place, touched last. */
    method Store(key: Key, bucket: Bucket)
      requires Valid() && ValidBucket(bucket)
      modifies `keys, `older, `buckets, `evictions
      ensures Valid() && Recency() == Without(old(Recency()), key) + [key]
      ensures key in buckets && buckets[key] == bucket && OnlyAdded(old(buckets), buckets, key)
      ensures evictions + |keys| == old(evictions) + old(|keys|) + if key in old(buckets) then 0 else 1
    {
      if key in buckets {
        TouchPresent(key);
        buckets := buckets[key := bucket];
      } else {
        AddKey(key, bucket);
      }
    }

    static function BucketIn(buckets: map<Key, Bucket>, key: Key): Bucket
    {
      if key in buckets then buckets[key] else []
    }

    /** Besides `key` nothing is new and nothing kept has changed. */
    static ghost predicate OnlyAdded(was: map<Key, Bucket>, now: map<Key, Bucket>, key: Key)
    {
      forall k :: k in now && k != key ==> k in was && now[k] == was[k]
    }

    /** Valid but for one key too many. */
    ghost predicate Full(key: Key, bucket: Bucket)
      reads this
    {
      && 1 <= maxEntries && 1 <= |keys| <= maxEntries + 1 && buckets.Keys == Elements(keys) && keys[|keys| - 1] == key
      && (forall k :: k in buckets ==> ValidBucket(buckets[k]))
      && Distinct(older + keys) && (older != [] ==> |keys| >= maxEntries)
      && buckets[key] == bucket
    }

    /** The least recently used bucket leaves. */
    method EvictOldest(key: Key, bucket: Bucket)
      requires Full(key, bucket) && |keys| > maxEntries
      modifies `keys, `older, `buckets, `evictions
      ensures Full(key, bucket) && |keys| == old(|keys|) - 1 && Recency() == old(Recency())
      ensures OnlyAdded(old(buckets), buckets, key) && key in old(buckets) && evictions == old(evictions) + 1
    {
      OldestLeaves(older, keys);
      var oldest := keys[0];
      older := older + [oldest];
      keys := keys[1..];
      buckets := buckets - {oldest};
      evictions := evictions + 1;
      assert key in keys && buckets.Keys == Elements(keys);
    }

    lemma OldestLeaves(older: seq<Key>, keys: seq<Key>)
      requires Distinct(older + keys) && |keys| > 0
      ensures older + keys == older + [keys[0]] + keys[1..] && Elements(keys[1..]) == Elements(keys) - {keys[0]}
    {
      DistinctParts(older, keys);
      DistinctRest(keys);
    }

    lemma NewKeyJoins(older: seq<Key>, keys: seq<Key>, key: Key)
      requires Distinct(older + keys) && key !in keys
      ensures Without(older, key) + (keys + [key]) == Without(older + keys, key) + [key]
      ensures Distinct(Without(older, key) + (keys + [key]))
      ensures Without(older, key) != [] ==> older != []
      ensures Elements(keys + [key]) == Elements(keys) + {key}
    {
      WithoutConcat(older, keys, key);
      DistinctMove(older, keys, key);
    }

    /** A key not held joins at the end; past the bound the least recently used ones leave. */
    method AddKey(key: Key, bucket: Bucket)
      requires Valid() && key !in buckets && ValidBucket(bucket)
      modifies `keys, `older, `buckets, `evictions
      ensures Valid() && Recency() == Without(old(Recency()), key) + [key]
      ensures key in buckets && buckets[key] == bucket
      ensures OnlyAdded(old(buckets), buckets, key) && evictions + |keys| == old(evictions) + old(|keys|) + 1
    {
      JoinNew(key, bucket);
      while |keys| > maxEntries
        invariant Full(key, bucket) && Recency() == Without(old(Recency()), key) + [key]
        invariant OnlyAdded(old(buckets), buckets, key) && evictions + |keys| == old(evictions) + old(|keys|) + 1
        decreases |keys|
      {
        EvictOldest(key, bucket);
      }
    }

    method JoinNew(key: Key, bucket: Bucket)
      requires Valid() && key !in buckets && ValidBucket(bucket)
      modifies `keys, `older, `buckets
      ensures Full(key, bucket) && Recency() == Without(old(Recency()), key) + [key] && buckets == old(buckets)[key := bucket]
      ensures |keys| == old(|keys|) + 1
    {
      NewKeyJoins(older, keys, key);
      older := Without(older, key);
      keys := keys + [key];
      buckets := buckets[key := bucket];
    }

    method Clear()
      requires Valid()
      modifies this
      ensures Valid() && keys == [] && Recency() == [] && buckets == map[]
      ensures hits == old(hits) && misses == old(misses)
    {
      keys, buckets, older := [], map[], [];
    }

    /** Whatever other threads do between two of this thread's sections; `missed` of their gets missed, each of their
        confirmations is a hit, and nothing else counts. */
    method Meanwhile(others: seq<Section>) returns (ghost missed: nat)
      requires Valid()
      modifies this
      ensures Valid() && hits == old(hits) + Confirmations(others) && misses == old(misses) + missed
      ensures Misses(others) <= missed <= Misses(others) + Snapshots(others)
    {
      missed := 0;
      for i := 0 to |others|
        invariant Valid() && hits == old(hits) + Confirmations(others[..i]) && misses == old(misses) + missed
        invariant Misses(others[..i]) <= missed <= Misses(others[..i]) + Snapshots(others[..i])
      {
        assert others[..i + 1][..i] == others[..i];
        ghost var before := misses;
        match others[i] {
          case Snapshotting(key) => var _ := Snapshot(key);
          case Confirming(key, candidate) => Confirm(key, candidate);
          case Missing => CountMiss();
          case Putting(key, value) => Put(key, value);
          case Clearing => Clear();
        }
        missed := missed + (misses - before);
      }
      assert others[..|others|] == others;
    }

    /** `get`: snapshot under the lock, validate outside it while others do as they please, finish under the lock.  A get
        counts once, as a hit exactly when it returns a candidate, whatever the others do between its two sections. */
    method Get(key: Key, validate: Candidate -> bool, others: seq<Section>) returns (result: Option<Candidate>, ghost missed: nat)
      requires Valid()
      modifies this
      ensures Valid()
      ensures result.Some? <==> key in old(buckets) && exists i :: 0 <= i < |old(buckets)[key]| && validate(old(buckets)[key][i])
      ensures result.Some? ==> FirstValidated(old(buckets)[key], validate, result.value)
      ensures hits == old(hits) + (if key in old(buckets) then Confirmations(others) else 0) + if result.Some? then 1 else 0
      ensures misses == old(misses) + missed + if result.None? then 1 else 0
      ensures if key in old(buckets) then Misses(others) <= missed <= Misses(others) + Snapshots(others) else missed == 0
    {
      var candidates := Snapshot(key);
      if candidates.None? {
        return None, 0;
      }
      var bucket := candidates.value;
      var i := 0;
      while i < |bucket| && !validate(bucket[i])
        invariant 0 <= i <= |bucket| && forall j :: 0 <= j < i ==> !validate(bucket[j])
      {
        i := i + 1;
      }
      missed := Meanwhile(others);
      if i < |bucket| {
        Confirm(key, bucket[i]);
        result := Some(bucket[i]);
      } else {
        CountMiss();
        result := None;
      }
    }
  }

  /** The keys held are the most recently touched ones, as many as fit. */
  lemma HeldAreTheMostRecent(cache: PlanCache)
    requires cache.Valid()
    ensures var recency, n := cache.Recency(), |cache.keys|;
            && Distinct(recency) && n == (if |recency| < cache.maxEntries then |recency| else cache.maxEntries)
            && cache.keys == recency[|recency| - n..]
  {
    assert cache.Recency()[|cache.older|..] == cache.keys;
  }
}
