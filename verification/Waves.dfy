/** Promotion waves: what one wave takes, and how often the waves of a run take a stream. */
module Waves {
  import opened Wrappers
  import opened Sequences
  import opened RecordTree
  import opened GroupRuns

  // ----- one wave -----

  /** The tree after `newRoots` were promoted and `passed` were passed over. */
  ghost predicate Moved(t0: Tree, t: Tree, newRoots: seq<Node>, passed: set<Node>)
  {
    && t == t0.(roots := t0.roots + Elements(newRoots), waiting := t.waiting, closed := t0.closed + passed, promoted := t0.promoted + multiset(newRoots))
    && (forall m :: m in t.waiting <==> m in t0.waiting && m !in newRoots && m !in passed)
  }

  /** Fragments that wait for some group become roots, those that wait for nothing are passed over. */
  ghost predicate Sorted(t0: Tree, pending: map<Node, set<Group>>, newRoots: seq<Node>, passed: set<Node>)
  {
    && (forall m :: m in passed ==> m in t0.waiting && GroupsOf(pending, m) == {})
    && (forall m: Node :: m in newRoots ==> if m.Fragment? then m in t0.waiting && GroupsOf(pending, m) != {} else m in t0.streams)
  }

  /** Where a wave stands: what it has met is queued, promoted or passed over, and it has met the candidates and whatever
      hangs off a fragment it passed over. */
  ghost predicate WaveAt(t0: Tree, t: Tree, pending: map<Node, set<Group>>, candidates: seq<Node>, unprocessed: seq<Node>, newRoots: seq<Node>,
                         passed: set<Node>, maybeEmpty: set<Node>)
  {
    && Moved(t0, t, newRoots, passed) && Sorted(t0, pending, newRoots, passed) && Distinct(unprocessed) && Distinct(newRoots)
    && (forall m :: m in maybeEmpty <==> m in unprocessed || m in newRoots || m in passed)
    && (forall m :: m in maybeEmpty <==> m in candidates || m in ChildrenOf(t0.children, passed))
    && (forall m :: m in unprocessed ==> m !in newRoots && m !in passed && if m.Fragment? then m in t0.waiting else m in t0.streams)
  }

  /** A whole wave: `newRoots` and `passed` are the candidates and whatever hangs off `passed`. */
  ghost predicate Wave(t0: Tree, t: Tree, pending: map<Node, set<Group>>, candidates: seq<Node>, newRoots: seq<Node>, passed: set<Node>)
  {
    && Moved(t0, t, newRoots, passed) && Sorted(t0, pending, newRoots, passed) && Distinct(newRoots)
    && (forall m {:trigger m in ChildrenOf(t0.children, passed)} :: m in newRoots || m in passed <==> m in candidates || m in ChildrenOf(t0.children, passed))
  }

  lemma WaveStarts(r: Records, t: Tree, pending: map<Node, set<Group>>, candidates: seq<Node>, maybeEmpty: set<Node>)
    requires TreeFits(r, t, FragmentsOf(candidates)) && Distinct(candidates) && maybeEmpty == Elements(candidates)
    requires forall n: Node :: n in candidates && n.Stream? ==> n in t.streams
    ensures WaveAt(t, t, pending, candidates, candidates, [], {}, maybeEmpty)
  {
    assert t.roots + Elements([]) == t.roots && t.closed + {} == t.closed;
    assert t.promoted + multiset([]) == t.promoted;
    forall m | m in candidates && m.Fragment? ensures m in t.waiting { assert m in FragmentsOf(candidates); }
  }

  lemma WaveEnds(t0: Tree, t: Tree, pending: map<Node, set<Group>>, candidates: seq<Node>, newRoots: seq<Node>, passed: set<Node>, maybeEmpty: set<Node>)
    requires WaveAt(t0, t, pending, candidates, [], newRoots, passed, maybeEmpty)
    ensures Wave(t0, t, pending, candidates, newRoots, passed)
  {
  }

  lemma CandidateIsTaken(t0: Tree, t: Tree, pending: map<Node, set<Group>>, candidates: seq<Node>, newRoots: seq<Node>, passed: set<Node>, n: Node)
    requires Wave(t0, t, pending, candidates, newRoots, passed) && n in candidates
    ensures n in newRoots || n in passed
  {
    assert n in ChildrenOf(t0.children, passed) || n in candidates;
  }

  lemma WavePromotes(t0: Tree, t: Tree, pending: map<Node, set<Group>>, candidates: seq<Node>, unprocessed: seq<Node>, newRoots: seq<Node>,
                     passed: set<Node>, maybeEmpty: set<Node>, n: Node, t': Tree)
    requires WaveAt(t0, t, pending, candidates, unprocessed, newRoots, passed, maybeEmpty) && unprocessed != [] && n == unprocessed[0]
    requires n.Fragment? ==> GroupsOf(pending, n) != {}
    requires t' == Promoted(t, n)
    ensures WaveAt(t0, t', pending, candidates, unprocessed[1..], newRoots + [n], passed, maybeEmpty)
  {
    assert n in unprocessed;
    DistinctRest(unprocessed);
    DistinctAppend(newRoots, n);
    MovedOn(t0, t, newRoots, passed, n, t');
    forall m ensures m in unprocessed <==> m == n || m in unprocessed[1..] { assert unprocessed == [n] + unprocessed[1..]; }
  }

  lemma MovedOn(t0: Tree, t: Tree, newRoots: seq<Node>, passed: set<Node>, n: Node, t': Tree)
    requires Moved(t0, t, newRoots, passed) && t' == Promoted(t, n)
    ensures Moved(t0, t', newRoots + [n], passed)
  {
    ElementsOfAppend(newRoots, n);
    assert t0.roots + Elements(newRoots + [n]) == t.roots + {n};
    assert multiset(newRoots + [n]) == multiset(newRoots) + multiset{n};
    assert t0.promoted + multiset(newRoots + [n]) == t.promoted + multiset{n};
  }

  /** The children a passed-over fragment adds to the queue: those not met before. */
  ghost predicate FreshOf(kids: seq<Node>, maybeEmpty: set<Node>, unmet: seq<Node>)
  {
    Distinct(unmet) && forall m :: m in unmet <==> m in kids && m !in maybeEmpty
  }

  lemma WavePasses(r: Records, t0: Tree, t: Tree, pending: map<Node, set<Group>>, candidates: seq<Node>, unprocessed: seq<Node>, newRoots: seq<Node>,
                   passed: set<Node>, maybeEmpty: set<Node>, n: Node, unmet: seq<Node>, t': Tree)
    requires WaveAt(t0, t, pending, candidates, unprocessed, newRoots, passed, maybeEmpty) && unprocessed != [] && n == unprocessed[0]
    requires n.Fragment? && GroupsOf(pending, n) == {} && FreshOf(Under(t.children, n), maybeEmpty, unmet) && t' == Skipped(t, n)
    requires forall m :: m in Under(t.children, n) ==> if m.Fragment? then m in t0.waiting else m in t0.streams
    ensures WaveAt(t0, t', pending, candidates, unprocessed[1..] + unmet, newRoots, passed + {n}, maybeEmpty + Elements(Under(t.children, n)))
  {
    assert n in unprocessed && n !in passed;
    DistinctRest(unprocessed);
    DistinctConcat(unprocessed[1..], unmet);
    assert t0.closed + (passed + {n}) == t.closed + {n};
    ChildrenOfMore(t0.children, passed, n);
    WaveMeets(t0, candidates, unprocessed, newRoots, passed, maybeEmpty, n, unmet, Under(t.children, n), ChildrenOf(t0.children, passed), ChildrenOf(t0.children, passed + {n}));
  }

  /** What has been met, once the children of `n` have. */
  lemma WaveMeets(t0: Tree, candidates: seq<Node>, unprocessed: seq<Node>, newRoots: seq<Node>, passed: set<Node>, maybeEmpty: set<Node>, n: Node,
                  unmet: seq<Node>, kids: seq<Node>, below: set<Node>, below': set<Node>)
    requires unprocessed != [] && n == unprocessed[0] && FreshOf(kids, maybeEmpty, unmet) && below' == below + Elements(kids)
    requires forall m :: m in maybeEmpty <==> m in unprocessed || m in newRoots || m in passed
    requires forall m :: m in maybeEmpty <==> m in candidates || m in below
    ensures forall m :: m in maybeEmpty + Elements(kids) <==> m in unprocessed[1..] + unmet || m in newRoots || m in passed + {n}
    ensures forall m :: m in maybeEmpty + Elements(kids) <==> m in candidates || m in below'
  {
    forall m ensures m in unprocessed <==> m == n || m in unprocessed[1..] { assert unprocessed == [n] + unprocessed[1..]; }
  }

  lemma ChildrenOfMore(children: map<Node, seq<Node>>, passed: set<Node>, n: Node)
    ensures ChildrenOf(children, passed + {n}) == ChildrenOf(children, passed) + Elements(Under(children, n))
  {
    forall c ensures c in ChildrenOf(children, passed + {n}) <==> c in ChildrenOf(children, passed) + Elements(Under(children, n)) {
      if c in ChildrenOf(children, passed) {
        var p :| p in passed && c in Under(children, p);
        assert p in passed + {n};
      }
      if c in Under(children, n) { assert n in passed + {n}; }
    }
  }

  /** The children of a passed-over fragment that are fragments were not met before, and are loose from now on. */
  lemma LooseAfter(r: Records, t0: Tree, t: Tree, pending: map<Node, set<Group>>, candidates: seq<Node>, unprocessed: seq<Node>, newRoots: seq<Node>,
                   passed: set<Node>, maybeEmpty: set<Node>, n: Node, unmet: seq<Node>)
    requires WaveAt(t0, t, pending, candidates, unprocessed, newRoots, passed, maybeEmpty) && unprocessed != [] && n == unprocessed[0]
    requires Holds(r, t, FragmentsOf(unprocessed)) && n in Live(t) && FreshOf(Under(t.children, n), maybeEmpty, unmet)
    ensures FragmentsOf(unprocessed[1..] + unmet) == FragmentsOf(unprocessed) - {n} + FragmentsOf(Under(t.children, n))
  {
    DistinctRest(unprocessed);
    forall m | m in Under(t.children, n) && m.Fragment? ensures m !in maybeEmpty && m != n {
      assert m in t.waiting && m !in FragmentsOf(unprocessed);
    }
    var a, b := FragmentsOf(unprocessed[1..] + unmet), FragmentsOf(unprocessed) - {n} + FragmentsOf(Under(t.children, n));
    forall m: Node ensures m in a <==> m in b {
      assert m in unprocessed[1..] + unmet <==> m in unprocessed[1..] || m in unmet;
    }
  }

  // ----- what a wave takes, said without the queue -----

  /** A wave from `candidates` passes a fragment over when it waits for nothing and is a candidate or stands in such a one. */
  ghost predicate PassedBy(r: Records, t: Tree, pending: map<Node, set<Group>>, candidates: seq<Node>, p: Node)
    requires WellMade(r)
    decreases r.depth(p)
  {
    && p in t.waiting && GroupsOf(pending, p) == {}
    && (p in candidates || (r.parentOf(p).Some? && PassedBy(r, t, pending, candidates, r.parentOf(p).value)))
  }

  /** A wave reaches the candidates and whatever hangs off a fragment it passes over. */
  ghost predicate ReachedBy(r: Records, t: Tree, pending: map<Node, set<Group>>, candidates: seq<Node>, m: Node)
    requires WellMade(r)
  {
    m in candidates || exists p :: PassedBy(r, t, pending, candidates, p) && m in Under(t.children, p)
  }

  /** The new roots are exactly the streams, and the fragments that wait for some group, that a wave reaches. */
  ghost predicate TakesReachable(r: Records, t: Tree, pending: map<Node, set<Group>>, candidates: seq<Node>, newRoots: seq<Node>)
    requires WellMade(r)
  {
    forall m: Node {:trigger ReachedBy(r, t, pending, candidates, m)} ::
      m in newRoots <==> ReachedBy(r, t, pending, candidates, m) && (m.Fragment? ==> GroupsOf(pending, m) != {})
  }

  /** What a wave promotes and passes over, without the queue. */
  lemma {:induction false} WaveTakesReachable(r: Records, t0: Tree, t: Tree, pending: map<Node, set<Group>>, candidates: seq<Node>, newRoots: seq<Node>, passed: set<Node>)
    requires WellMade(r) && TreeFits(r, t0, FragmentsOf(candidates)) && Wave(t0, t, pending, candidates, newRoots, passed)
    ensures forall p :: p in passed <==> PassedBy(r, t0, pending, candidates, p)
    ensures TakesReachable(r, t0, pending, candidates, newRoots)
  {
    forall p ensures p in passed <==> PassedBy(r, t0, pending, candidates, p) {
      if p in passed { PassedIsPassedBy(r, t0, t, pending, candidates, newRoots, passed, p); }
      if PassedBy(r, t0, pending, candidates, p) { PassedByIsPassed(r, t0, t, pending, candidates, newRoots, passed, p); }
    }
    forall m: Node ensures m in newRoots <==> ReachedBy(r, t0, pending, candidates, m) && (m.Fragment? ==> GroupsOf(pending, m) != {}) {
      assert m in ChildrenOf(t0.children, passed) <==> exists p :: p in passed && m in Under(t0.children, p);
    }
  }

  lemma {:induction false} PassedIsPassedBy(r: Records, t0: Tree, t: Tree, pending: map<Node, set<Group>>, candidates: seq<Node>, newRoots: seq<Node>,
                                            passed: set<Node>, p: Node)
    requires WellMade(r) && Holds(r, t0, FragmentsOf(candidates)) && Kinds(t0) && Wave(t0, t, pending, candidates, newRoots, passed) && p in passed
    ensures PassedBy(r, t0, pending, candidates, p)
    decreases r.depth(p)
  {
    if p !in candidates {
      assert p in ChildrenOf(t0.children, passed);
      var q :| q in passed && p in Under(t0.children, q);
      assert r.parentOf(p) == Some(q);
      PassedIsPassedBy(r, t0, t, pending, candidates, newRoots, passed, q);
    }
  }

  lemma {:induction false} PassedByIsPassed(r: Records, t0: Tree, t: Tree, pending: map<Node, set<Group>>, candidates: seq<Node>, newRoots: seq<Node>,
                                            passed: set<Node>, p: Node)
    requires WellMade(r) && Hangs(r, t0, FragmentsOf(candidates)) && Kinds(t0) && Wave(t0, t, pending, candidates, newRoots, passed)
    requires PassedBy(r, t0, pending, candidates, p)
    ensures p in passed
    decreases r.depth(p)
  {
    assert p in ChildrenOf(t0.children, passed) || p in candidates ==> p in newRoots || p in passed;
    if p !in candidates {
      var q := r.parentOf(p).value;
      PassedByIsPassed(r, t0, t, pending, candidates, newRoots, passed, q);
      assert p in Under(t0.children, q);
      assert p in ChildrenOf(t0.children, passed);
    }
  }

  // ----- the waves of a run -----

  /** The streams revealed at the top level, and per completion, or wave over new records, the fragments it took. */
  datatype History = History(top: set<Node>, waves: seq<set<Node>>)

  /** How many waves took a fragment that `n` hangs off. */
  function Takings(children: map<Node, seq<Node>>, waves: seq<set<Node>>, n: Node): nat
    decreases |waves|
  {
    if waves == [] then 0
    else
      var last := |waves| - 1;
      Takings(children, waves[..last], n) + if n in ChildrenOf(children, waves[last]) then 1 else 0
  }

  /** The waves took the fragments that were completed or passed over, each once. */
  ghost predicate TookThose(waves: seq<set<Node>>, done: set<Node>)
  {
    && (forall i, j :: 0 <= i < j < |waves| ==> waves[i] !! waves[j])
    && (forall i :: 0 <= i < |waves| ==> waves[i] <= done)
    && (forall f :: f in done ==> exists i :: 0 <= i < |waves| && f in waves[i])
  }

  /** A stream at the top level was announced once; any other once for each wave that took a fragment it hangs off. */
  ghost predicate Counted(t: Tree, h: History)
  {
    && (forall n, p :: n in h.top ==> n !in Under(t.children, p))
    && (forall n :: n in t.streams ==> t.promoted[n] == if n in h.top then 1 else Takings(t.children, h.waves, n))
  }

  ghost predicate Recorded(t: Tree, h: History)
  {
    TookThose(h.waves, t.closed - t.lost) && Counted(t, h) && h.top <= t.streams
  }

  lemma NoHistoryYet(t: Tree)
    requires t == Tree({}, map[], {}, {}, {}, {}, multiset{})
    ensures Recorded(t, History({}, []))
  {
  }

  /** Streams hang off the fragments of `waves` as before. */
  ghost predicate SameUnder(children: map<Node, seq<Node>>, children': map<Node, seq<Node>>, done: set<Node>)
  {
    forall p :: p in done ==> Under(children', p) == Under(children, p)
  }

  lemma {:induction false} TakingsSame(children: map<Node, seq<Node>>, children': map<Node, seq<Node>>, waves: seq<set<Node>>, done: set<Node>, n: Node)
    requires SameUnder(children, children', done) && forall i :: 0 <= i < |waves| ==> waves[i] <= done
    ensures Takings(children', waves, n) == Takings(children, waves, n)
    decreases |waves|
  {
    if waves != [] {
      var last := |waves| - 1;
      TakingsSame(children, children', waves[..last], done, n);
      assert waves[last] <= done;
      assert n in ChildrenOf(children', waves[last]) <==> n in ChildrenOf(children, waves[last]);
    }
  }

  lemma {:induction false} TakenByNone(children: map<Node, seq<Node>>, waves: seq<set<Node>>, done: set<Node>, n: Node)
    requires (forall i :: 0 <= i < |waves| ==> waves[i] <= done) && forall p :: p in done ==> n !in Under(children, p)
    ensures Takings(children, waves, n) == 0
    decreases |waves|
  {
    if waves != [] {
      TakenByNone(children, waves[..|waves| - 1], done, n);
      assert waves[|waves| - 1] <= done;
    }
  }

  lemma {:induction false} TakenOnceIff(children: map<Node, seq<Node>>, waves: seq<set<Node>>, n: Node)
    ensures Takings(children, waves, n) == 0 <==> forall i :: 0 <= i < |waves| ==> n !in ChildrenOf(children, waves[i])
    ensures Takings(children, waves, n) <= 1 <==> forall i, j :: 0 <= i < j < |waves| ==> n !in ChildrenOf(children, waves[i]) || n !in ChildrenOf(children, waves[j])
    decreases |waves|
  {
    if waves != [] {
      var last := |waves| - 1;
      var rest := waves[..last];
      TakenOnceIff(children, rest, n);
      assert forall i :: 0 <= i < last ==> rest[i] == waves[i];
    }
  }

  lemma TakingsAppend(children: map<Node, seq<Node>>, waves: seq<set<Node>>, wave: set<Node>, n: Node)
    ensures Takings(children, waves + [wave], n) == Takings(children, waves, n) + if n in ChildrenOf(children, wave) then 1 else 0
  {
    assert (waves + [wave])[..|waves|] == waves;
  }

  /** One more wave, over fragments not taken before. */
  lemma TookMore(waves: seq<set<Node>>, done: set<Node>, wave: set<Node>, done': set<Node>)
    requires TookThose(waves, done) && wave !! done && done' == done + wave
    ensures TookThose(waves + [wave], done')
  {
    var w' := waves + [wave];
    forall i, j | 0 <= i < j < |w'| ensures w'[i] !! w'[j] { assert waves[i] <= done; }
    forall f | f in done' ensures exists i :: 0 <= i < |w'| && f in w'[i] {
      if f in done {
        var i :| 0 <= i < |waves| && f in waves[i];
        assert f in w'[i];
      } else {
        assert f in w'[|waves|];
      }
    }
  }

  // ----- what each operation does to the history -----

  /** Records have been added: nothing leaves a list, no list of a fragment that is done changes, and no stream known
      before gets another place. */
  ghost predicate Grown(t: Tree, t': Tree)
  {
    && t' == t.(children := t'.children, waiting := t'.waiting, streams := t'.streams) && t.waiting <= t'.waiting && t.streams <= t'.streams
    && SameUnder(t.children, t'.children, t.closed)
    && (forall n, p :: n in t.streams ==> (n in Under(t'.children, p) <==> n in Under(t.children, p)))
  }

  lemma NothingGrown(t: Tree)
    ensures Grown(t, t)
  {
  }

  lemma GrownOn(t: Tree, t1: Tree, t2: Tree)
    requires Grown(t, t1) && Grown(t1, t2)
    ensures Grown(t, t2)
  {
  }

  lemma HungGrows(t: Tree, m: Node, p: Node, t': Tree)
    requires Kinds(t) && t' == Hung(t, m, p) && m.Fragment? && p in Live(t)
    ensures Grown(t, t')
  {
    UnderAfter(t.children, m, p, t'.children);
  }

  lemma ListedGrows(t0: Tree, t: Tree, n: Node, p: Node, t': Tree)
    requires Grown(t0, t) && Kinds(t) && t' == Listed(t, n, p) && n !in t0.streams && p in Live(t)
    ensures Grown(t0, t')
  {
    UnderAfter(t.children, n, p, t'.children);
  }

  /** A stream not revealed before counts nothing yet. */
  lemma NewStreamCountsNothing(t: Tree, t': Tree, h: History, n: Node)
    requires Kinds(t) && Counts(t) && Lists(t) && Recorded(t, h) && Grown(t, t') && n in t'.streams && n !in t.streams && n.Stream?
    ensures t.promoted[n] == 0 && Takings(t'.children, h.waves, n) == 0 && n !in h.top
  {
    assert n !in t.promoted;
    TakenByNone(t'.children, h.waves, t.closed - t.lost, n);
  }

  lemma OldStreamCountsAsBefore(t: Tree, t': Tree, h: History, n: Node)
    requires Recorded(t, h) && Grown(t, t')
    ensures Takings(t'.children, h.waves, n) == Takings(t.children, h.waves, n)
  {
    TakingsSame(t.children, t'.children, h.waves, t.closed - t.lost, n);
  }

  /** Streams hung off fragments: nothing is announced yet. */
  lemma RecordedGrows(t: Tree, t': Tree, h: History)
    requires Kinds(t) && Counts(t) && Lists(t) && Recorded(t, h) && Grown(t, t') && Kinds(t')
    ensures Recorded(t', h)
  {
    forall n | n in t'.streams ensures t'.promoted[n] == if n in h.top then 1 else Takings(t'.children, h.waves, n) {
      if n in t.streams { OldStreamCountsAsBefore(t, t', h, n); } else { NewStreamCountsNothing(t, t', h, n); }
    }
  }

  /** `f` was completed, and the wave from its children took it and `passed`. */
  lemma RecordedCompletes(t: Tree, h: History, f: Node, pending: map<Node, set<Group>>, newRoots: seq<Node>, passed: set<Node>, t': Tree)
    requires Kinds(t) && Lists(t) && Recorded(t, h) && f in t.roots && f.Fragment?
    requires Wave(Released(t, f), t', pending, Under(t.children, f), newRoots, passed)
    ensures Recorded(t', History(h.top, h.waves + [{f} + passed]))
  {
    var wave := {f} + passed;
    Takes(t, h.waves, f, pending, newRoots, passed, t', wave);
    ChildrenOfMore(t.children, passed, f);
    assert passed + {f} == wave;
    forall n | n in t'.streams ensures t'.promoted[n] == if n in h.top then 1 else Takings(t'.children, h.waves + [wave], n) {
      TakingsAppend(t.children, h.waves, wave, n);
      assert n in newRoots <==> n in ChildrenOf(t.children, wave);
      OneOfDistinct(newRoots, n);
    }
  }

  /** What the completion takes was not taken before. */
  lemma Takes(t: Tree, waves: seq<set<Node>>, f: Node, pending: map<Node, set<Group>>, newRoots: seq<Node>, passed: set<Node>, t': Tree, wave: set<Node>)
    requires TookThose(waves, t.closed - t.lost) && Kinds(t) && f in t.roots && wave == {f} + passed
    requires Wave(Released(t, f), t', pending, Under(t.children, f), newRoots, passed)
    ensures TookThose(waves + [wave], t'.closed - t'.lost)
  {
    forall m | m in passed ensures m !in t.closed { assert m in t.waiting; }
    assert t'.closed - t'.lost == t.closed - t.lost + wave;
    TookMore(waves, t.closed - t.lost, wave, t'.closed - t'.lost);
  }

  lemma OneOfDistinct(s: seq<Node>, n: Node)
    requires Distinct(s)
    ensures multiset(s)[n] == if n in s then 1 else 0
  {
    if n in s {
      var i :| 0 <= i < |s| && s[i] == n;
      assert s == s[..i] + [n] + s[i + 1..];
    }
  }

  /** New records at the top level: the wave over them announces each of their streams. */
  lemma RecordedOpens(t: Tree, h: History, mid: Tree, more: set<Node>, pending: map<Node, set<Group>>, candidates: seq<Node>, newRoots: seq<Node>,
                      passed: set<Node>, t': Tree)
    requires Kinds(t) && Counts(t) && Lists(t) && Recorded(t, h) && Grown(t, mid) && Kinds(mid)
    requires Wave(mid, t', pending, candidates, newRoots, passed) && mid.streams == t.streams + more
    requires forall n: Node :: n.Stream? ==> (n in candidates <==> n in more)
    requires forall n, p :: n in more ==> n.Stream? && n !in t.streams && n !in Under(mid.children, p)
    ensures Recorded(t', History(h.top + more, h.waves + [passed]))
  {
    var h' := History(h.top + more, h.waves + [passed]);
    Passes(t, h.waves, mid, pending, candidates, newRoots, passed, t');
    OpenedIsUnlisted(t, h, mid, more, t');
    forall n | n in t'.streams ensures t'.promoted[n] == if n in h'.top then 1 else Takings(t'.children, h'.waves, n) {
      OpenedCounts(t, h, mid, more, pending, candidates, newRoots, passed, t', n);
    }
  }

  /** What the wave passes over was not taken before. */
  lemma Passes(t: Tree, waves: seq<set<Node>>, mid: Tree, pending: map<Node, set<Group>>, candidates: seq<Node>, newRoots: seq<Node>, passed: set<Node>, t': Tree)
    requires TookThose(waves, t.closed - t.lost) && mid.closed == t.closed && mid.lost == t.lost && Kinds(mid)
    requires Wave(mid, t', pending, candidates, newRoots, passed)
    ensures TookThose(waves + [passed], t'.closed - t'.lost)
  {
    forall m | m in passed ensures m !in t.closed { assert m in mid.waiting; }
    assert t'.closed - t'.lost == t.closed - t.lost + passed;
    TookMore(waves, t.closed - t.lost, passed, t'.closed - t'.lost);
  }

  lemma OpenedIsUnlisted(t: Tree, h: History, mid: Tree, more: set<Node>, t': Tree)
    requires (forall n, p :: n in h.top ==> n !in Under(t.children, p)) && h.top <= t.streams && Grown(t, mid)
    requires forall n, p :: n in more ==> n !in Under(mid.children, p)
    requires t'.children == mid.children && t'.streams == mid.streams == t.streams + more
    ensures h.top + more <= t'.streams && forall n, p :: n in h.top + more ==> n !in Under(t'.children, p)
  {
  }

  lemma OpenedCounts(t: Tree, h: History, mid: Tree, more: set<Node>, pending: map<Node, set<Group>>, candidates: seq<Node>, newRoots: seq<Node>,
                     passed: set<Node>, t': Tree, n: Node)
    requires Kinds(t) && Counts(t) && Lists(t) && Recorded(t, h) && Grown(t, mid) && Kinds(mid) && n in t'.streams
    requires Wave(mid, t', pending, candidates, newRoots, passed) && mid.streams == t.streams + more
    requires forall n: Node :: n.Stream? ==> (n in candidates <==> n in more)
    requires forall n, p :: n in more ==> n.Stream? && n !in t.streams && n !in Under(mid.children, p)
    ensures t'.promoted[n] == if n in h.top + more then 1 else Takings(t'.children, h.waves + [passed], n)
  {
    TakingsAppend(mid.children, h.waves, passed, n);
    TakenInWave(mid, pending, candidates, newRoots, passed, t', n);
    if n in more {
      NewStreamCountsNothing(t, mid, h, n);
    } else {
      OldStreamCountsAsBefore(t, mid, h, n);
    }
  }

  /** A wave promotes a stream once when it is a candidate or hangs off a fragment passed over. */
  lemma TakenInWave(mid: Tree, pending: map<Node, set<Group>>, candidates: seq<Node>, newRoots: seq<Node>, passed: set<Node>, t': Tree, n: Node)
    requires Kinds(mid) && n in mid.streams && Wave(mid, t', pending, candidates, newRoots, passed)
    ensures t'.promoted[n] == mid.promoted[n] + if n in candidates || n in ChildrenOf(mid.children, passed) then 1 else 0
    ensures n in ChildrenOf(mid.children, passed) <==> exists p :: p in passed && n in Under(mid.children, p)
  {
    OneOfDistinct(newRoots, n);
    assert n in ChildrenOf(mid.children, passed) || n !in ChildrenOf(mid.children, passed);
  }

  lemma RecordedDropped(t: Tree, h: History, f: Node)
    requires Kinds(t) && Recorded(t, h) && f in t.roots
    ensures Recorded(Dropped(t, f), h)
  {
    assert Dropped(t, f).closed - Dropped(t, f).lost == t.closed - t.lost;
  }
}
