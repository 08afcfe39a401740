/** Sequences without repetition, their elements and their prefixes. */
module Sequences {

  ghost predicate Distinct<T(!new)>(s: seq<T>)
  {
    forall i, j :: 0 <= i < j < |s| ==> s[i] != s[j]
  }

  function Elements<T(!new)>(s: seq<T>): (r: set<T>)
    ensures forall x :: x in r <==> x in s
  {
    set x | x in s
  }

  lemma PrefixGrows<T>(s: seq<T>, i: nat)
    requires i < |s|
    ensures s[..i + 1] == s[..i] + [s[i]]
  {
  }

  lemma ElementsOfAppend<T(!new)>(s: seq<T>, x: T)
    ensures Elements(s + [x]) == Elements(s) + {x}
  {
  }

  lemma ElementsOfPrefix<T(!new)>(s: seq<T>, i: nat)
    requires i < |s|
    ensures Elements(s[..i + 1]) == Elements(s[..i]) + {s[i]}
    ensures Distinct(s) ==> s[i] !in Elements(s[..i])
  {
    PrefixGrows(s, i);
  }

  lemma DistinctAppend<T(!new)>(s: seq<T>, x: T)
    requires Distinct(s) && x !in s
    ensures Distinct(s + [x]) && Elements(s + [x]) == Elements(s) + {x}
  {
  }

  lemma DistinctCons<T(!new)>(x: T, s: seq<T>)
    requires Distinct(s) && x !in s
    ensures Distinct([x] + s)
  {
    var r := [x] + s;
    forall i, j | 0 <= i < j < |r| ensures r[i] != r[j] { assert r[j] == s[j - 1]; }
  }

  lemma DistinctRest<T(!new)>(s: seq<T>)
    requires Distinct(s) && s != []
    ensures Distinct(s[1..]) && s[0] !in s[1..] && Elements(s[1..]) == Elements(s) - {s[0]}
  {
    forall i, j | 0 <= i < j < |s[1..]| ensures s[1..][i] != s[1..][j] { assert s[i + 1] != s[j + 1]; }
    forall i | 0 <= i < |s[1..]| ensures s[1..][i] != s[0] { assert s[1..][i] == s[i + 1]; }
    forall x | x in s && x != s[0] ensures x in s[1..] {}
  }

  lemma DistinctConcat<T(!new)>(a: seq<T>, b: seq<T>)
    requires Distinct(a) && Distinct(b) && forall x :: x in a ==> x !in b
    ensures Distinct(a + b)
  {
    var c := a + b;
    forall i, j | 0 <= i < j < |c|
      ensures c[i] != c[j]
    {
      if i < |a| && |a| <= j { assert c[i] in a && c[j] in b; }
    }
  }

  function Keep<T(!new)>(s: seq<T>, p: T -> bool): (r: seq<T>)
    ensures forall x :: x in r <==> x in s && p(x)
    ensures |r| <= |s|
  {
    if s == [] then []
    else
      var rest := Keep(s[1..], p);
      assert forall x :: x in s <==> x == s[0] || x in s[1..];
      if p(s[0]) then [s[0]] + rest else rest
  }

  lemma {:induction false} KeepIsDistinct<T(!new)>(s: seq<T>, p: T -> bool)
    ensures Distinct(s) ==> Distinct(Keep(s, p))
  {
    if s != [] {
      KeepIsDistinct(s[1..], p);
    }
  }

  // ----- order -----

  ghost predicate Precedes<T(!new)>(s: seq<T>, x: T, y: T)
  {
    exists i, j :: 0 <= i < j < |s| && s[i] == x && s[j] == y
  }

  /** The elements of `r` come in the order `s` has them in. */
  ghost predicate InOrderOf<T(!new)>(r: seq<T>, s: seq<T>)
  {
    forall i, j :: 0 <= i < j < |r| ==> Precedes(s, r[i], r[j])
  }

  lemma InOrderOfBoth<T(!new)>(r: seq<T>, s: seq<T>, t: seq<T>)
    requires InOrderOf(r, s) && InOrderOf(s, t)
    ensures InOrderOf(r, t)
  {
    forall i, j | 0 <= i < j < |r| ensures Precedes(t, r[i], r[j]) {
      assert Precedes(s, r[i], r[j]);
      var k, l :| 0 <= k < l < |s| && s[k] == r[i] && s[l] == r[j];
      assert Precedes(t, s[k], s[l]);
    }
  }

  lemma {:induction false} KeepIsInOrder<T(!new)>(s: seq<T>, p: T -> bool)
    ensures InOrderOf(Keep(s, p), s)
  {
    if s != [] {
      var r, rest := Keep(s, p), Keep(s[1..], p);
      KeepIsInOrder(s[1..], p);
      forall i, j | 0 <= i < j < |r| ensures Precedes(s, r[i], r[j]) {
        var back := |r| - |rest|;
        if i >= back {
          assert Precedes(s[1..], rest[i - back], rest[j - back]);
          PrecedesInMore(s, r[i], r[j]);
        } else {
          assert r[j] in rest && r[j] in s[1..];
          var k :| 0 <= k < |s[1..]| && s[1..][k] == r[j];
          assert s[k + 1] == r[j];
        }
      }
    }
  }

  lemma PrecedesInMore<T(!new)>(s: seq<T>, x: T, y: T)
    requires s != [] && Precedes(s[1..], x, y)
    ensures Precedes(s, x, y)
  {
    var i, j :| 0 <= i < j < |s[1..]| && s[1..][i] == x && s[1..][j] == y;
    assert s[i + 1] == x && s[j + 1] == y;
  }
}
