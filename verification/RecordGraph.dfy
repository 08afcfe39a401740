/** The record graph of an incremental response: deferred fragments, streams and the execution groups they wait for. */
module RecordGraph {
  import opened Wrappers
  import opened Sequences
  import opened RecordTree
  import opened GroupRuns
  import opened Waves

  /** What the invariant is made of. */
  datatype Clause = OfTree | OfGroups | OfRuns | OfLosses

  ghost predicate Meets(c: Clause, r: Records, t: Tree, w: Work, loose: set<Node>, except: set<Node>)
    requires WellMade(r)
  {
    match c
    case OfTree => TreeFits(r, t, loose)
    case OfGroups => WorkFits(r, t.roots, Seen(t), w, except)
    case OfRuns => Clean(r, t.roots, t.closed, w)
    case OfLosses => t.lost != {} ==> w.failed
  }

  /** The tree and the groups, between and within operations: the fragments of `loose` hang off nothing, those of `except`
      may be roots that wait for nothing. */
  ghost predicate Invariant(r: Records, t: Tree, w: Work, loose: set<Node>, except: set<Node>)
    requires WellMade(r)
  {
    forall c :: Meets(c, r, t, w, loose, except)
  }

  lemma Opens(r: Records, t: Tree, w: Work, loose: set<Node>, except: set<Node>)
    requires WellMade(r) && Invariant(r, t, w, loose, except)
    ensures TreeFits(r, t, loose) && WorkFits(r, t.roots, Seen(t), w, except) && Clean(r, t.roots, t.closed, w) && (t.lost != {} ==> w.failed)
  {
    assert Meets(OfTree, r, t, w, loose, except) && Meets(OfGroups, r, t, w, loose, except);
    assert Meets(OfRuns, r, t, w, loose, except) && Meets(OfLosses, r, t, w, loose, except);
  }

  lemma Closes(r: Records, t: Tree, w: Work, loose: set<Node>, except: set<Node>)
    requires WellMade(r) && TreeFits(r, t, loose) && WorkFits(r, t.roots, Seen(t), w, except) && Clean(r, t.roots, t.closed, w)
    requires t.lost != {} ==> w.failed
    ensures Invariant(r, t, w, loose, except)
  {
  }

  /** Climbing from `m` meets no closed fragment and ends at a root -- or, where new top-level fragments may appear, at one. */
  ghost predicate Admissible(r: Records, roots: set<Node>, closed: set<Node>, m: Node, initial: bool)
    requires WellMade(r)
    decreases r.depth(m)
  {
    m.Fragment? &&
    (m in roots ||
     (m !in closed && if r.parentOf(m).None? then initial else Admissible(r, roots, closed, r.parentOf(m).value, initial)))
  }

  /** A record a completed group or a stream item reveals. */
  datatype Revealed = NewGroup(group: Group) | NewStream(stream: Node)

  /** New groups over admissible fragments, and new streams: at the top level, or under the fragments of the group that
      reveals them. */
  ghost predicate Revealable(r: Records, t: Tree, registered: set<Group>, revealed: seq<Revealed>, parents: seq<Node>, topAllowed: bool)
    requires WellMade(r)
  {
    && Distinct(revealed)
    && (forall g :: NewGroup(g) in revealed ==> g !in registered && forall m :: m in r.recordsOf(g) ==> Admissible(r, t.roots, t.closed, m, topAllowed))
    && (forall n :: NewStream(n) in revealed ==> n.Stream? && n !in t.streams)
    && (forall n, p :: NewStream(n) in revealed && p in parents ==> Admissible(r, t.roots, t.closed, p, false))
  }

  /** The groups of `revealed` have joined what their fragments wait for. */
  ghost predicate AllJoined(r: Records, pending: map<Node, set<Group>>, pending': map<Node, set<Group>>, revealed: seq<Revealed>)
  {
    forall m, h :: h in GroupsOf(pending', m) <==> h in GroupsOf(pending, m) || (NewGroup(h) in revealed && m in r.recordsOf(h))
  }

  ghost predicate Registers(w: Work, w': Work, revealed: seq<Revealed>)
  {
    && w' == w.(pending := w'.pending, running := w'.running, registered := w'.registered, started := w'.started)
    && (forall h :: h in w'.registered <==> h in w.registered || NewGroup(h) in revealed)
  }

  /** The streams of `revealed` are revealed, each under exactly these parents. */
  ghost predicate Hangings(t: Tree, t': Tree, revealed: seq<Revealed>, parents: seq<Node>)
  {
    && (forall n :: n in t'.streams <==> n in t.streams || NewStream(n) in revealed)
    && (forall n, p :: NewStream(n) in revealed ==> (n in Under(t'.children, p) <==> p in parents))
  }

  ghost predicate MembersLive(r: Records, t: Tree, revealed: seq<Revealed>)
  {
    forall g, m :: NewGroup(g) in revealed && m in r.recordsOf(g) ==> m in Live(t)
  }

  /** What `_add_incremental_records` has done with `revealed`. */
  ghost predicate Added(r: Records, t: Tree, w: Work, t': Tree, w': Work, revealed: seq<Revealed>, parents: seq<Node>)
  {
    && Grown(t, t') && AllJoined(r, w.pending, w'.pending, revealed) && Registers(w, w', revealed)
    && Hangings(t, t', revealed, parents) && MembersLive(r, t', revealed)
  }

  lemma NothingAdded(r: Records, t: Tree, w: Work, parents: seq<Node>)
    ensures Added(r, t, w, t, w, [], parents)
  {
  }

  lemma AddedOn(r: Records, t: Tree, w: Work, t1: Tree, w1: Work, t2: Tree, w2: Work, revealed: seq<Revealed>, x: Revealed, parents: seq<Node>)
    requires Added(r, t, w, t1, w1, revealed, parents) && Added(r, t1, w1, t2, w2, [x], parents) && x !in revealed
    ensures Added(r, t, w, t2, w2, revealed + [x], parents)
  {
    GrownOn(t, t1, t2);
    AllJoinedOn(r, w.pending, w1.pending, w2.pending, revealed, x);
    RegistersOn(w, w1, w2, revealed, x);
    HangingsOn(t, t1, t2, revealed, x, parents);
    forall g, m | NewGroup(g) in revealed + [x] && m in r.recordsOf(g) ensures m in Live(t2) {
      if NewGroup(g) == x { assert x in [x]; } else { assert m in Live(t1); }
    }
  }

  lemma AllJoinedOn(r: Records, pending: map<Node, set<Group>>, pending1: map<Node, set<Group>>, pending2: map<Node, set<Group>>, revealed: seq<Revealed>, x: Revealed)
    requires AllJoined(r, pending, pending1, revealed) && AllJoined(r, pending1, pending2, [x])
    ensures AllJoined(r, pending, pending2, revealed + [x])
  {
    forall m, h ensures h in GroupsOf(pending2, m) <==> h in GroupsOf(pending, m) || (NewGroup(h) in revealed + [x] && m in r.recordsOf(h)) {
      assert h in GroupsOf(pending2, m) <==> h in GroupsOf(pending1, m) || (NewGroup(h) in [x] && m in r.recordsOf(h));
    }
  }

  lemma RegistersOn(w: Work, w1: Work, w2: Work, revealed: seq<Revealed>, x: Revealed)
    requires Registers(w, w1, revealed) && Registers(w1, w2, [x])
    ensures Registers(w, w2, revealed + [x])
  {
    forall h ensures h in w2.registered <==> h in w.registered || NewGroup(h) in revealed + [x] {
      assert h in w2.registered <==> h in w1.registered || NewGroup(h) in [x];
    }
  }

  lemma HangingsOn(t: Tree, t1: Tree, t2: Tree, revealed: seq<Revealed>, x: Revealed, parents: seq<Node>)
    requires Hangings(t, t1, revealed, parents) && Hangings(t1, t2, [x], parents) && Grown(t1, t2) && x !in revealed
    ensures Hangings(t, t2, revealed + [x], parents)
  {
    forall n ensures n in t2.streams <==> n in t.streams || NewStream(n) in revealed + [x] {
      assert n in t2.streams <==> n in t1.streams || NewStream(n) in [x];
    }
    forall n, p | NewStream(n) in revealed + [x] ensures n in Under(t2.children, p) <==> p in parents {
      if NewStream(n) == x { assert NewStream(n) in [x]; } else { assert n in t1.streams; }
    }
  }

  lemma AddedThen(r: Records, t: Tree, w: Work, t': Tree, w': Work, w2: Work, revealed: seq<Revealed>)
    requires Added(r, t, w, t', w', revealed, []) && w2 == w'.(running := w2.running, started := w2.started)
    ensures Added(r, t, w, t', w2, revealed, [])
  {
  }

  // ----- new fragments -----

  /** Fragments without a parent, and streams, that wait for the next wave. */
  ghost predicate TopLevel(r: Records, initial: seq<Node>)
  {
    Distinct(initial) && forall n :: n in initial && n.Fragment? ==> r.parentOf(n).None?
  }

  ghost predicate SameStreams(initial: seq<Node>, initial': seq<Node>)
  {
    forall n: Node :: n.Stream? ==> (n in initial' <==> n in initial)
  }

  /** A fragment that is neither a root nor done, and not where it would wait, is new. */
  lemma NotSeenYet(r: Records, t: Tree, w: Work, initial: seq<Node>, except: set<Node>, m: Node)
    requires WellMade(r) && Invariant(r, t, w, FragmentsOf(initial), except) && TopLevel(r, initial) && m.Fragment? && m !in t.roots && m !in t.closed
    requires if r.parentOf(m).None? then m !in initial else m !in Under(t.children, r.parentOf(m).value)
    ensures m !in Seen(t)
  {
    Opens(r, t, w, FragmentsOf(initial), except);
    if m in t.waiting { WaitingIsPlaced(r, t, FragmentsOf(initial), m); }
  }

  lemma ListedWaits(r: Records, t: Tree, w: Work, loose: set<Node>, except: set<Node>, m: Node, p: Node)
    requires WellMade(r) && Invariant(r, t, w, loose, except) && m.Fragment? && p in Live(t) && m in Under(t.children, p)
    ensures m in Live(t)
  {
    Opens(r, t, w, loose, except);
  }

  lemma LooseIsLive(r: Records, t: Tree, w: Work, loose: set<Node>, except: set<Node>, m: Node)
    requires WellMade(r) && Invariant(r, t, w, loose, except) && m in loose
    ensures m in Live(t)
  {
    Opens(r, t, w, loose, except);
  }

  lemma HungKeeps(r: Records, t: Tree, w: Work, loose: set<Node>, except: set<Node>, m: Node, p: Node)
    requires WellMade(r) && Invariant(r, t, w, loose, except)
    requires m.Fragment? && m !in Seen(t) && p in Live(t) && p.Fragment? && r.parentOf(m) == Some(p)
    ensures Invariant(r, Hung(t, m, p), w, loose, except) && Grown(t, Hung(t, m, p)) && m in Under(Hung(t, m, p).children, p)
  {
    Opens(r, t, w, loose, except);
    HungFits(r, t, loose, m, p, Hung(t, m, p));
    HungGrows(t, m, p, Hung(t, m, p));
    SeenMore(r, t.roots, Seen(t), w, except, Seen(Hung(t, m, p)));
    Closes(r, Hung(t, m, p), w, loose, except);
  }

  lemma LoosenedKeeps(r: Records, t: Tree, w: Work, loose: set<Node>, except: set<Node>, m: Node)
    requires WellMade(r) && Invariant(r, t, w, loose, except) && m.Fragment? && m !in Seen(t) && r.parentOf(m).None?
    ensures Invariant(r, Loosened(t, m), w, loose + {m}, except) && Grown(t, Loosened(t, m))
  {
    Opens(r, t, w, loose, except);
    LoosenedFits(r, t, loose, m, Loosened(t, m));
    SeenMore(r, t.roots, Seen(t), w, except, Seen(Loosened(t, m)));
    Closes(r, Loosened(t, m), w, loose + {m}, except);
  }

  lemma FragmentsAppend(initial: seq<Node>, m: Node)
    ensures FragmentsOf(initial + [m]) == if m.Fragment? then FragmentsOf(initial) + {m} else FragmentsOf(initial)
  {
    assert forall x :: x in initial + [m] <==> x in initial || x == m;
  }

  /** Groups joined and started, with the tree as it is. */
  lemma JoinedKeeps(r: Records, t: Tree, w: Work, loose: set<Node>, except: set<Node>, pending: map<Node, set<Group>>, g: Group)
    requires WellMade(r) && Invariant(r, t, w, loose, except) && g !in w.registered && JoinedTo(w.pending, pending, r.recordsOf(g), g)
    requires forall m :: m in r.recordsOf(g) ==> m in Live(t)
    ensures Invariant(r, t, WithGroup(r, t.roots, w, pending, g), loose, except)
  {
    Opens(r, t, w, loose, except);
    JoinedFits(r, t.roots, Seen(t), w, except, pending, g, WithGroup(r, t.roots, w, pending, g));
    JoinedClean(r, t.roots, t.closed, w, pending, g);
    Closes(r, t, WithGroup(r, t.roots, w, pending, g), loose, except);
  }

  /** A group among its live fragments is one record added. */
  lemma GroupIsAdded(r: Records, t: Tree, w: Work, t': Tree, pending: map<Node, set<Group>>, g: Group, parents: seq<Node>)
    requires Grown(t, t') && t'.streams == t.streams && JoinedTo(w.pending, pending, r.recordsOf(g), g)
    requires forall m :: m in r.recordsOf(g) ==> m in Live(t')
    ensures Added(r, t, w, t', WithGroup(r, t'.roots, w, pending, g), [NewGroup(g)], parents)
  {
  }

  // ----- new streams -----

  lemma ShownKeeps(r: Records, t: Tree, w: Work, loose: set<Node>, except: set<Node>, n: Node)
    requires WellMade(r) && Invariant(r, t, w, loose, except) && n.Stream?
    ensures Invariant(r, Shown(t, n), w, loose, except)
  {
    Opens(r, t, w, loose, except);
    ShownFits(r, t, loose, n, Shown(t, n));
    Closes(r, Shown(t, n), w, loose, except);
  }

  lemma ListedKeeps(r: Records, t: Tree, w: Work, loose: set<Node>, except: set<Node>, n: Node, p: Node)
    requires WellMade(r) && Invariant(r, t, w, loose, except) && n.Stream? && n in t.streams && p in Live(t) && p.Fragment? && n !in Under(t.children, p)
    ensures Invariant(r, Listed(t, n, p), w, loose, except)
  {
    Opens(r, t, w, loose, except);
    ListedFits(r, t, loose, n, p, Listed(t, n, p));
    Closes(r, Listed(t, n, p), w, loose, except);
  }

  /** Where the hanging of stream `n`, not revealed in `t0`, stands: it hangs off exactly these fragments. */
  ghost predicate Hanging(t0: Tree, t: Tree, n: Node, parents: seq<Node>)
  {
    Grown(t0, t) && n !in t0.streams && t.streams == t0.streams + {n} && forall p :: n in Under(t.children, p) <==> p in parents
  }

  lemma HangingStarts(r: Records, t: Tree, w: Work, loose: set<Node>, except: set<Node>, n: Node)
    requires WellMade(r) && Invariant(r, t, w, loose, except) && n.Stream? && n !in t.streams
    ensures Hanging(t, Shown(t, n), n, []) && Invariant(r, Shown(t, n), w, loose, except)
  {
    Opens(r, t, w, loose, except);
    ShownKeeps(r, t, w, loose, except, n);
  }

  lemma HangingOn(r: Records, w: Work, loose: set<Node>, except: set<Node>, t0: Tree, t: Tree, n: Node, parents: seq<Node>, t': Tree, p: Node)
    requires WellMade(r) && Invariant(r, t, w, loose, except) && n.Stream? && p.Fragment?
    requires Hanging(t0, t, n, parents) && p in Live(t)
    requires t' == if n in Under(t.children, p) then t else Listed(t, n, p)
    ensures Hanging(t0, t', n, parents + [p]) && Invariant(r, t', w, loose, except)
  {
    Opens(r, t, w, loose, except);
    if n !in Under(t.children, p) {
      ListedKeeps(r, t, w, loose, except, n, p);
      ListedGrows(t0, t, n, p, t');
      UnderAfter(t.children, n, p, t'.children);
    }
    forall q ensures n in Under(t'.children, q) <==> q in parents + [p] {}
  }

  lemma HangingGrows(t0: Tree, t: Tree, n: Node, parents: seq<Node>, t': Tree)
    requires Hanging(t0, t, n, parents) && Grown(t, t') && t'.streams == t.streams
    ensures Hanging(t0, t', n, parents)
  {
    GrownOn(t0, t, t');
  }

  lemma StreamIsAdded(r: Records, t: Tree, w: Work, t': Tree, n: Node, parents: seq<Node>)
    requires Hanging(t, t', n, parents)
    ensures Added(r, t, w, t', w, [NewStream(n)], parents)
  {
  }

  // ----- completion -----

  lemma CompletedKeeps(r: Records, t: Tree, w: Work, pending: map<Node, set<Group>>, successful: map<Node, set<Group>>, g: Group)
    requires WellMade(r) && Invariant(r, t, w, {}, {}) && g in w.running
    requires LeftFrom(w.pending, pending, r.recordsOf(g), g) && JoinedTo(w.successful, successful, r.recordsOf(g), g)
    ensures Invariant(r, t, Completed(w, pending, successful, g), {}, Elements(r.recordsOf(g)))
  {
    Opens(r, t, w, {}, {});
    CompletedFits(r, t.roots, Seen(t), w, pending, successful, g);
    CompletedClean(r, t.roots, t.closed, w, pending, successful, g);
    Closes(r, t, Completed(w, pending, successful, g), {}, Elements(r.recordsOf(g)));
  }

  lemma ReleasedKeeps(r: Records, t: Tree, w: Work, f: Node, except: set<Node>, successful: map<Node, set<Group>>)
    requires WellMade(r) && Invariant(r, t, w, {}, except) && f in t.roots && f.Fragment? && GroupsOf(w.pending, f) == {}
    requires HandedOver(w.successful, successful, GroupsOf(w.successful, f))
    ensures Invariant(r, Released(t, f), Delivered(w, f, successful), FragmentsOf(Under(t.children, f)), except)
  {
    Opens(r, t, w, {}, except);
    ReleasedFits(r, t, f, Released(t, f));
    DeliveredFits(r, t.roots, Seen(t), w, except, f, successful);
    DeliveredClean(r, t.roots, t.closed, w, f, successful);
    Closes(r, Released(t, f), Delivered(w, f, successful), FragmentsOf(Under(t.children, f)), except);
  }

  lemma KidsAreKnownUnder(r: Records, t: Tree, w: Work, except: set<Node>, f: Node, kids: seq<Node>)
    requires WellMade(r) && Invariant(r, t, w, {}, except) && kids == Under(t.children, f)
    ensures Distinct(kids) && forall n :: n in kids && n.Stream? ==> n in t.streams
  {
    Opens(r, t, w, {}, except);
  }

  lemma DroppedKeeps(r: Records, t: Tree, w: Work, f: Node)
    requires WellMade(r) && Invariant(r, t, w, {}, {}) && f in t.roots && f.Fragment?
    ensures Invariant(r, Dropped(t, f), w.(failed := true), {}, {})
  {
    Opens(r, t, w, {}, {});
    DroppedFits(r, t, f, Dropped(t, f));
    FewerRootsFit(r, t.roots, Seen(t), w, {}, t.roots - {f}, w.(failed := true));
    Closes(r, Dropped(t, f), w.(failed := true), {}, {});
  }

  lemma FinishedKeeps(r: Records, t: Tree, w: Work, n: Node)
    requires WellMade(r) && Invariant(r, t, w, {}, {}) && n in t.roots && n.Stream?
    ensures Invariant(r, Finished(t, n), w, {}, {})
  {
    Opens(r, t, w, {}, {});
    FinishedFits(r, t, n, Finished(t, n));
    FewerRootsFit(r, t.roots, Seen(t), w, {}, t.roots - {n}, w);
    StreamsWaitForNothing(r, w.pending, n);
    StreamLeavesClean(r, t.roots, t.closed, w, n);
    Closes(r, Finished(t, n), w, {}, {});
  }

  lemma DiscardedKeeps(r: Records, t: Tree, w: Work, g: Group)
    requires WellMade(r) && Invariant(r, t, w, {}, {}) && !CompletesRoot(r, t.roots, g)
    ensures Invariant(r, t, w.(running := w.running - multiset{g}, failed := true), {}, {})
  {
    Opens(r, t, w, {}, {});
    DiscardedFits(r, t.roots, Seen(t), w, g);
    Closes(r, t, w.(running := w.running - multiset{g}, failed := true), {}, {});
  }

  // ----- promotion -----

  lemma PromotedKeeps(r: Records, t: Tree, w: Work, loose: set<Node>, except: set<Node>, n: Node)
    requires WellMade(r) && TreeFits(r, t, loose) && WorkFits(r, t.roots, Seen(t), w, except) && Clean(r, t.roots + {n}, t.closed, w)
    requires t.lost != {} ==> w.failed
    requires if n.Fragment? then n in loose && GroupsOf(w.pending, n) != {} && forall g :: g in GroupsOf(w.pending, n) ==> g in w.running else n in t.streams
    ensures Invariant(r, Promoted(t, n), w, loose - {n}, except)
  {
    PromotedFits(r, t, loose, n, Promoted(t, n));
    if n.Stream? { StreamsWaitForNothing(r, w.pending, n); }
    PromotedRuns(r, t.roots, Seen(t), w, except, n, Seen(Promoted(t, n)));
    Closes(r, Promoted(t, n), w, loose - {n}, except);
  }

  lemma SkippedKeeps(r: Records, t: Tree, w: Work, loose: set<Node>, except: set<Node>, n: Node, loose': set<Node>)
    requires WellMade(r) && Invariant(r, t, w, loose, except) && n in loose && GroupsOf(w.pending, n) == {}
    requires loose' == loose - {n} + FragmentsOf(Under(t.children, n))
    ensures Invariant(r, Skipped(t, n), w, loose', except)
  {
    Opens(r, t, w, loose, except);
    SkippedFits(r, t, loose, n, Skipped(t, n), loose');
    SkippedStaysClean(r, t.roots, t.closed, w, n);
    Closes(r, Skipped(t, n), w, loose', except);
  }

  lemma FragmentsRest(q: seq<Node>)
    requires Distinct(q) && q != []
    ensures FragmentsOf(q[1..]) == FragmentsOf(q) - {q[0]} && (q[0].Fragment? ==> q[0] in FragmentsOf(q))
  {
    DistinctRest(q);
  }

  /** Where a promotion wave stands. */
  ghost predicate Promoting(r: Records, t0: Tree, t: Tree, w: Work, candidates: seq<Node>, unprocessed: seq<Node>, newRoots: seq<Node>, passed: set<Node>,
                            maybeEmpty: set<Node>, except: set<Node>)
    requires WellMade(r)
  {
    Invariant(r, t, w, FragmentsOf(unprocessed), except) && WaveAt(t0, t, w.pending, candidates, unprocessed, newRoots, passed, maybeEmpty)
  }

  lemma PromotingStarts(r: Records, t: Tree, w: Work, candidates: seq<Node>, maybeEmpty: set<Node>, except: set<Node>)
    requires WellMade(r) && Invariant(r, t, w, FragmentsOf(candidates), except) && Distinct(candidates) && maybeEmpty == Elements(candidates)
    requires forall n :: n in candidates && n.Stream? ==> n in t.streams
    ensures Promoting(r, t, t, w, candidates, candidates, [], {}, maybeEmpty, except)
  {
    Opens(r, t, w, FragmentsOf(candidates), except);
    WaveStarts(r, t, w.pending, candidates, maybeEmpty);
  }

  lemma PromotingEnds(r: Records, t0: Tree, w0: Work, t: Tree, w: Work, candidates: seq<Node>, newRoots: seq<Node>, passed: set<Node>, maybeEmpty: set<Node>,
                      except: set<Node>)
    requires WellMade(r) && Invariant(r, t0, w0, FragmentsOf(candidates), except) && w.pending == w0.pending
    requires Promoting(r, t0, t, w, candidates, [], newRoots, passed, maybeEmpty, except)
    ensures Invariant(r, t, w, {}, except) && Wave(t0, t, w.pending, candidates, newRoots, passed)
    ensures TakesReachable(r, t0, w.pending, candidates, newRoots)
  {
    assert FragmentsOf([]) == {};
    Opens(r, t0, w0, FragmentsOf(candidates), except);
    WaveEnds(t0, t, w.pending, candidates, newRoots, passed, maybeEmpty);
    WaveTakesReachable(r, t0, t, w.pending, candidates, newRoots, passed);
  }

  /** The next in the queue becomes a root, its groups being run. */
  lemma PromotingRoot(r: Records, t0: Tree, t: Tree, w: Work, candidates: seq<Node>, unprocessed: seq<Node>, newRoots: seq<Node>, passed: set<Node>,
                      maybeEmpty: set<Node>, except: set<Node>, n: Node)
    requires WellMade(r) && Promoting(r, t0, t, w, candidates, unprocessed, newRoots, passed, maybeEmpty, except) && unprocessed != [] && n == unprocessed[0]
    requires n.Fragment? ==> GroupsOf(w.pending, n) != {}
    ensures Promoting(r, t0, Promoted(t, n), StartedFor(r, t.roots, w, n), candidates, unprocessed[1..], newRoots + [n], passed, maybeEmpty, except)
    ensures n in t.waiting <==> n.Fragment?
  {
    Opens(r, t, w, FragmentsOf(unprocessed), except);
    assert n in unprocessed;
    FragmentsRest(unprocessed);
    var w' := StartedFor(r, t.roots, w, n);
    StartedForKeeps(r, t.roots, Seen(t), t.closed, w, except, n, w');
    PromotedKeeps(r, t, w', FragmentsOf(unprocessed), except, n);
    WavePromotes(t0, t, w.pending, candidates, unprocessed, newRoots, passed, maybeEmpty, n, Promoted(t, n));
  }

  /** The next in the queue is passed over, and those of its children not met before are queued. */
  lemma PromotingSkip(r: Records, t0: Tree, t: Tree, w: Work, candidates: seq<Node>, unprocessed: seq<Node>, newRoots: seq<Node>, passed: set<Node>,
                      maybeEmpty: set<Node>, except: set<Node>, n: Node, unmet: seq<Node>)
    requires WellMade(r) && Promoting(r, t0, t, w, candidates, unprocessed, newRoots, passed, maybeEmpty, except) && unprocessed != [] && n == unprocessed[0]
    requires n.Fragment? && GroupsOf(w.pending, n) == {} && FreshOf(Under(t.children, n), maybeEmpty, unmet)
    ensures Promoting(r, t0, Skipped(t, n), w, candidates, unprocessed[1..] + unmet, newRoots, passed + {n}, maybeEmpty + Elements(Under(t.children, n)), except)
    ensures n in t.waiting
  {
    Opens(r, t, w, FragmentsOf(unprocessed), except);
    FragmentsRest(unprocessed);
    LooseAfter(r, t0, t, w.pending, candidates, unprocessed, newRoots, passed, maybeEmpty, n, unmet);
    SkippedKeeps(r, t, w, FragmentsOf(unprocessed), except, n, FragmentsOf(unprocessed[1..] + unmet));
    KidsAreKnown(r, t0, t, n, FragmentsOf(unprocessed), newRoots, passed);
    WavePasses(r, t0, t, w.pending, candidates, unprocessed, newRoots, passed, maybeEmpty, n, unmet, Skipped(t, n));
  }

  lemma KidsAreKnown(r: Records, t0: Tree, t: Tree, n: Node, loose: set<Node>, newRoots: seq<Node>, passed: set<Node>)
    requires Holds(r, t, loose) && Lists(t) && n in Live(t) && Moved(t0, t, newRoots, passed)
    ensures forall m :: m in Under(t.children, n) ==> if m.Fragment? then m in t0.waiting else m in t0.streams
  {
  }

  // ----- what an operation hands to its caller -----

  /** `newRoots` became roots and `passed` were passed over: fragments that were neither roots nor done, and revealed
      streams. */
  ghost predicate Opened(t: Tree, t': Tree, newRoots: seq<Node>, passed: set<Node>)
  {
    && t'.roots == t.roots + Elements(newRoots) && t'.closed == t.closed + passed && t'.lost == t.lost && Distinct(newRoots)
    && t'.promoted == t.promoted + multiset(newRoots)
    && (forall m :: m in newRoots && m.Fragment? ==> m !in t.roots && m !in t.closed)
    && (forall m :: m in passed ==> m.Fragment? && m !in t.roots && m !in t.closed)
  }

  lemma WaveOpens(t: Tree, mid: Tree, pending: map<Node, set<Group>>, candidates: seq<Node>, newRoots: seq<Node>, passed: set<Node>, t': Tree)
    requires Kinds(mid) && mid.roots == t.roots && mid.closed == t.closed && mid.lost == t.lost && mid.promoted == t.promoted
    requires Wave(mid, t', pending, candidates, newRoots, passed)
    ensures Opened(t, t', newRoots, passed)
  {
  }

  /** The top-level records of `revealed`: its streams, and fragments; none when records cannot be at the top level. */
  ghost predicate Starts(initial: seq<Node>, revealed: seq<Revealed>, topAllowed: bool)
  {
    (!topAllowed ==> initial == []) && forall n: Node :: n.Stream? ==> (n in initial <==> topAllowed && NewStream(n) in revealed)
  }

  lemma StartsOn(initial: seq<Node>, revealed: seq<Revealed>, i: nat, topAllowed: bool, initial': seq<Node>)
    requires i < |revealed| && Starts(initial, revealed[..i], topAllowed)
    requires match revealed[i] case NewGroup(_) => SameStreams(initial, initial') && (!topAllowed ==> initial' == initial)
                               case NewStream(n) => initial' == if topAllowed then initial + [n] else initial
    ensures Starts(initial', revealed[..i + 1], topAllowed)
  {
    PrefixGrows(revealed, i);
    forall n: Node | n.Stream? ensures n in initial' <==> topAllowed && NewStream(n) in revealed[..i + 1] {
      assert NewStream(n) in revealed[..i + 1] <==> NewStream(n) in revealed[..i] || NewStream(n) == revealed[i];
    }
  }

  lemma MoreStreams(t: Tree, mid: Tree, revealed: seq<Revealed>, top: seq<Node>, more: set<Node>)
    requires Hangings(t, mid, revealed, []) && Starts(top, revealed, true) && more == mid.streams - t.streams && t.streams <= mid.streams
    requires forall n :: NewStream(n) in revealed ==> n.Stream? && n !in t.streams
    ensures mid.streams == t.streams + more
    ensures forall n: Node :: n.Stream? ==> (n in top <==> n in more)
    ensures forall n, p :: n in more ==> n.Stream? && n !in t.streams && n !in Under(mid.children, p)
  {
    forall n, p | n in more ensures n.Stream? && n !in t.streams && n !in Under(mid.children, p) { assert NewStream(n) in revealed; }
  }

  // ----- the history -----

  /** Streams hung off fragments change no count. */
  lemma GrownIsRecorded(r: Records, t: Tree, w: Work, t': Tree, w': Work, except: set<Node>, h: History)
    requires WellMade(r) && Invariant(r, t, w, {}, {}) && Invariant(r, t', w', {}, except) && Recorded(t, h) && Grown(t, t')
    ensures Recorded(t', h)
  {
    Opens(r, t, w, {}, {});
    Opens(r, t', w', {}, except);
    RecordedGrows(t, t', h);
  }

  lemma DroppedIsRecorded(r: Records, t: Tree, w: Work, h: History, f: Node)
    requires WellMade(r) && Invariant(r, t, w, {}, {}) && Recorded(t, h) && f in t.roots
    ensures Recorded(Dropped(t, f), h)
  {
    Opens(r, t, w, {}, {});
    RecordedDropped(t, h, f);
  }

  /** The history after the completion of `f`. */
  ghost function CompletedHistory(h: History, f: Node, passed: set<Node>): History
  {
    History(h.top, h.waves + [{f} + passed])
  }

  lemma CompletedIsRecorded(r: Records, t: Tree, w: Work, except: set<Node>, f: Node, kids: seq<Node>, pending: map<Node, set<Group>>, newRoots: seq<Node>, passed: set<Node>,
                            t': Tree, h: History)
    requires WellMade(r) && Invariant(r, t, w, {}, except) && Recorded(t, h) && f in t.roots && f.Fragment?
    requires kids == Under(t.children, f) && Wave(Released(t, f), t', pending, kids, newRoots, passed)
    ensures Recorded(t', CompletedHistory(h, f, passed))
  {
    Opens(r, t, w, {}, except);
    RecordedCompletes(t, h, f, pending, newRoots, passed, t');
  }

  /** The history after records at the top level. */
  ghost function OpenedHistory(h: History, t: Tree, mid: Tree, passed: set<Node>): History
  {
    History(h.top + (mid.streams - t.streams), h.waves + [passed])
  }

  lemma OpenedIsRecorded(r: Records, t: Tree, w: Work, mid: Tree, w': Work, revealed: seq<Revealed>, initial: seq<Node>, pending: map<Node, set<Group>>,
                         newRoots: seq<Node>, passed: set<Node>, t': Tree, h: History)
    requires WellMade(r) && Invariant(r, t, w, {}, {}) && Invariant(r, mid, w', FragmentsOf(initial), {}) && Recorded(t, h)
    requires Revealable(r, t, w.registered, revealed, [], true) && Added(r, t, w, mid, w', revealed, []) && Starts(initial, revealed, true)
    requires Wave(mid, t', pending, initial, newRoots, passed)
    ensures Recorded(t', OpenedHistory(h, t, mid, passed)) && Opened(t, t', newRoots, passed) && TreeFits(r, mid, FragmentsOf(initial))
  {
    Opens(r, t, w, {}, {});
    Opens(r, mid, w', FragmentsOf(initial), {});
    var more := mid.streams - t.streams;
    MoreStreams(t, mid, revealed, initial, more);
    RecordedOpens(t, h, mid, more, pending, initial, newRoots, passed, t');
    WaveOpens(t, mid, pending, initial, newRoots, passed, t');
  }

  class IncGraph {
    const records: Records
    var roots: set<Node>
    var pending: map<Node, set<Group>>
    var successful: map<Node, set<Group>>
    var children: map<Node, seq<Node>>
    /** The groups whose results have not been handled yet: collected, running or queued. */
    var running: multiset<Group>
    ghost var waiting: set<Node>
    ghost var closed: set<Node>
    ghost var lost: set<Node>
    ghost var streams: set<Node>
    ghost var promoted: multiset<Node>
    ghost var registered: set<Group>
    ghost var started: multiset<Group>
    ghost var delivered: multiset<Group>
    ghost var failed: bool
    ghost var history: History

    ghost function T(): Tree
      reads `roots, `children, `waiting, `closed, `lost, `streams, `promoted
    {
      Tree(roots, children, waiting, closed, lost, streams, promoted)
    }

    ghost function W(): Work
      reads `pending, `successful, `running, `registered, `started, `delivered, `failed
    {
      Work(pending, successful, running, registered, started, delivered, failed)
    }

    /** What holds between operations; within one, the fragments of `except` may be roots that wait for nothing. */
    ghost predicate Steady(except: set<Node>)
      reads this
    {
      WellMade(records) && Invariant(records, T(), W(), {}, except) && Recorded(T(), history)
    }

    constructor (records: Records)
      requires WellMade(records)
      ensures this.records == records && Steady({}) && T() == Tree({}, map[], {}, {}, {}, {}, multiset{})
      ensures W() == Work(map[], map[], multiset{}, {}, multiset{}, multiset{}, false)
    {
      this.records := records;
      roots, pending, successful, children, running := {}, map[], map[], map[], multiset{};
      waiting, closed, lost, streams, promoted := {}, {}, {}, {}, multiset{};
      registered, started, delivered, failed, history := {}, multiset{}, multiset{}, false, History({}, []);
      new;
      NoTreeYet(records, T());
      NoWorkYet(records, W());
      Closes(records, T(), W(), {}, {});
      NoHistoryYet(T());
    }

    /** `_completes_root_node`. */
    method CompletesRootNode(g: Group) returns (yes: bool)
      ensures yes <==> CompletesRoot(records, roots, g)
    {
      var rs := records.recordsOf(g);
      for i := 0 to |rs|
        invariant forall j :: 0 <= j < i ==> rs[j] !in roots
      {
        if rs[i] in roots {
          return true;
        }
      }
      return false;
    }

    method OnExecutionGroup(g: Group)
      modifies `running, `started
      ensures W() == Started(old(W()), g)
    {
      running := running + multiset{g};
      started := started + multiset{g};
    }

    // ----- promotion -----

    /** Starts the groups a fragment waits for, but those some root waits for already. */
    method StartPending(n: Node)
      modifies `running, `started
      ensures W() == StartedAll(old(W()), Idle(records, roots, GroupsOf(old(pending), n)))
    {
      ghost var w := W();
      var todo := GroupsOf(pending, n);
      ghost var all, done := todo, {};
      StartedNone(w);
      while todo != {}
        invariant W() == StartedAll(w, Idle(records, roots, done)) && LeftToDo(all, done, todo)
        decreases todo
      {
        var g :| g in todo;
        StartUnlessRunning(g);
        OneLess(all, done, todo, g);
        OneMoreStarted(w, done, g, W());
        todo, done := todo - {g}, done + {g};
      }
      NothingLeft(all, done);
    }

    ghost predicate LeftToDo(all: set<Group>, done: set<Group>, todo: set<Group>)
    {
      forall g :: (g in all <==> g in done || g in todo) && !(g in done && g in todo)
    }

    lemma OneLess(all: set<Group>, done: set<Group>, todo: set<Group>, g: Group)
      requires LeftToDo(all, done, todo) && g in todo
      ensures LeftToDo(all, done + {g}, todo - {g}) && g !in done
    {
    }

    lemma NothingLeft(all: set<Group>, done: set<Group>)
      requires LeftToDo(all, done, {})
      ensures done == all
    {
    }

    lemma OneMoreStarted(w: Work, done: set<Group>, g: Group, w': Work)
      requires g !in done
      requires w' == if CompletesRoot(records, roots, g) then StartedAll(w, Idle(records, roots, done)) else Started(StartedAll(w, Idle(records, roots, done)), g)
      ensures w' == StartedAll(w, Idle(records, roots, done + {g}))
    {
      IdleOneMore(records, roots, done, g);
      StartedOneMore(w, Idle(records, roots, done), g);
    }

    method StartUnlessRunning(g: Group)
      modifies `running, `started
      ensures W() == if CompletesRoot(records, roots, g) then old(W()) else Started(old(W()), g)
    {
      var already := CompletesRootNode(g);
      if !already {
        OnExecutionGroup(g);
      }
    }

    /** `_promote_non_empty_to_root`: fragments that wait for a group and streams become roots; a fragment that waits
        for nothing is passed over and its children take its place. */
    method PromoteNonEmptyToRoot(candidates: seq<Node>, ghost except: set<Node>) returns (newRoots: seq<Node>, ghost passed: set<Node>)
      requires WellMade(records) && Invariant(records, T(), W(), FragmentsOf(candidates), except) && Distinct(candidates)
      requires forall n :: n in candidates && n.Stream? ==> n in streams
      modifies `roots, `running, `started, `waiting, `closed, `promoted
      ensures Invariant(records, T(), W(), {}, except) && W() == old(W()).(running := running, started := started)
      ensures Wave(old(T()), T(), pending, candidates, newRoots, passed)
      ensures TakesReachable(records, old(T()), pending, candidates, newRoots)
    {
      newRoots, passed := [], {};
      var maybeEmpty := Elements(candidates);
      var unprocessed := candidates;
      ghost var t0, w0 := T(), W();
      PromotingStarts(records, t0, w0, candidates, maybeEmpty, except);
      while unprocessed != []
        invariant Promoting(records, t0, T(), W(), candidates, unprocessed, newRoots, passed, maybeEmpty, except)
        invariant W() == w0.(running := running, started := started)
        decreases waiting, |unprocessed|
      {
        unprocessed, newRoots, maybeEmpty, passed := PromoteOne(t0, candidates, unprocessed, newRoots, maybeEmpty, passed, except);
      }
      PromotingEnds(records, t0, w0, T(), W(), candidates, newRoots, passed, maybeEmpty, except);
    }

    method PromoteOne(ghost t0: Tree, ghost candidates: seq<Node>, unprocessed: seq<Node>, newRoots: seq<Node>, maybeEmpty: set<Node>, ghost passed: set<Node>,
                      ghost except: set<Node>)
      returns (unprocessed': seq<Node>, newRoots': seq<Node>, maybeEmpty': set<Node>, ghost passed': set<Node>)
      requires WellMade(records) && Promoting(records, t0, T(), W(), candidates, unprocessed, newRoots, passed, maybeEmpty, except) && unprocessed != []
      modifies `roots, `running, `started, `waiting, `closed, `promoted
      ensures Promoting(records, t0, T(), W(), candidates, unprocessed', newRoots', passed', maybeEmpty', except)
      ensures W() == old(W()).(running := running, started := started)
      ensures waiting < old(waiting) || (waiting == old(waiting) && |unprocessed'| < |unprocessed|)
    {
      var node := unprocessed[0];
      if node.Fragment? && GroupsOf(pending, node) == {} {
        newRoots', passed' := newRoots, passed + {node};
        unprocessed', maybeEmpty' := PassOver(t0, candidates, unprocessed, newRoots, maybeEmpty, passed, except);
      } else {
        PromotingRoot(records, t0, T(), W(), candidates, unprocessed, newRoots, passed, maybeEmpty, except, node);
        PromoteRoot(node);
        unprocessed', newRoots', maybeEmpty', passed' := unprocessed[1..], newRoots + [node], maybeEmpty, passed;
      }
    }

    /** A fragment's groups are started, and it or a stream becomes a root. */
    method PromoteRoot(node: Node)
      modifies `roots, `running, `started, `waiting, `promoted
      ensures T() == Promoted(old(T()), node) && W() == StartedFor(records, old(roots), old(W()), node)
    {
      if node.Fragment? {
        StartPending(node);
      }
      Promote(node);
    }

    method Promote(n: Node)
      modifies `roots, `waiting, `promoted
      ensures T() == Promoted(old(T()), n)
    {
      roots, waiting, promoted := roots + {n}, waiting - {n}, promoted + multiset{n};
    }

    method PassOver(ghost t0: Tree, ghost candidates: seq<Node>, unprocessed: seq<Node>, ghost newRoots: seq<Node>, maybeEmpty: set<Node>, ghost passed: set<Node>,
                    ghost except: set<Node>)
      returns (unprocessed': seq<Node>, maybeEmpty': set<Node>)
      requires WellMade(records) && Promoting(records, t0, T(), W(), candidates, unprocessed, newRoots, passed, maybeEmpty, except) && unprocessed != []
      requires unprocessed[0].Fragment? && GroupsOf(pending, unprocessed[0]) == {}
      modifies `waiting, `closed
      ensures Promoting(records, t0, T(), W(), candidates, unprocessed', newRoots, passed + {unprocessed[0]}, maybeEmpty', except)
      ensures waiting < old(waiting)
    {
      var node := unprocessed[0];
      ghost var unmet;
      unprocessed', maybeEmpty', unmet := Enqueue(Under(children, node), unprocessed[1..], maybeEmpty);
      PromotingSkip(records, t0, T(), W(), candidates, unprocessed, newRoots, passed, maybeEmpty, except, node, unmet);
      Skip(node);
    }

    ghost method Skip(n: Node)
      modifies `waiting, `closed
      ensures T() == Skipped(old(T()), n)
    {
      waiting, closed := waiting - {n}, closed + {n};
    }

    /** Appends the children not queued before. */
    method Enqueue(kids: seq<Node>, unprocessed: seq<Node>, maybeEmpty: set<Node>)
      returns (unprocessed': seq<Node>, maybeEmpty': set<Node>, ghost unmet: seq<Node>)
      ensures unprocessed' == unprocessed + unmet && FreshOf(kids, maybeEmpty, unmet) && maybeEmpty' == maybeEmpty + Elements(kids)
    {
      unprocessed', maybeEmpty', unmet := unprocessed, maybeEmpty, [];
      for i := 0 to |kids|
        invariant unprocessed' == unprocessed + unmet && FreshOf(kids[..i], maybeEmpty, unmet) && maybeEmpty' == maybeEmpty + Elements(kids[..i])
      {
        ElementsOfPrefix(kids, i);
        PrefixGrows(kids, i);
        if kids[i] !in maybeEmpty' {
          DistinctAppend(unmet, kids[i]);
          assert unprocessed + unmet + [kids[i]] == unprocessed + (unmet + [kids[i]]);
          unprocessed', maybeEmpty', unmet := unprocessed' + [kids[i]], maybeEmpty' + {kids[i]}, unmet + [kids[i]];
        }
      }
      assert kids[..|kids|] == kids;
    }

    // ----- new records -----

    /** `_add_deferred_fragment_node`: hangs a fragment off its parent, and that off its own, up to a root or the top
        level. */
    method AddDeferredFragmentNode(m: Node, initial: seq<Node>, ghost topAllowed: bool, ghost except: set<Node>) returns (initial': seq<Node>)
      requires WellMade(records) && Invariant(records, T(), W(), FragmentsOf(initial), except) && TopLevel(records, initial)
      requires Admissible(records, roots, closed, m, topAllowed)
      modifies `children, `waiting
      ensures Invariant(records, T(), W(), FragmentsOf(initial'), except) && TopLevel(records, initial') && Grown(old(T()), T())
      ensures m in Live(T()) && (!topAllowed ==> initial' == initial) && SameStreams(initial, initial')
      decreases records.depth(m)
    {
      initial' := initial;
      if m in roots {
        return;
      }
      match records.parentOf(m)
      case None =>
        if m !in initial {
          initial' := AddLoose(m, initial, except);
        } else {
          LooseIsLive(records, T(), W(), FragmentsOf(initial), except, m);
        }
      case Some(p) =>
        initial' := AddDeferredFragmentNode(p, initial, topAllowed, except);
        AddUnder(m, p, initial', except);
    }

    method AddLoose(m: Node, initial: seq<Node>, ghost except: set<Node>) returns (initial': seq<Node>)
      requires WellMade(records) && Invariant(records, T(), W(), FragmentsOf(initial), except) && TopLevel(records, initial)
      requires m.Fragment? && m !in roots && m !in closed && m !in initial && records.parentOf(m).None?
      modifies `waiting
      ensures Invariant(records, T(), W(), FragmentsOf(initial'), except) && TopLevel(records, initial') && Grown(old(T()), T())
      ensures m in Live(T()) && SameStreams(initial, initial')
    {
      NotSeenYet(records, T(), W(), initial, except, m);
      LoosenedKeeps(records, T(), W(), FragmentsOf(initial), except, m);
      DistinctAppend(initial, m);
      FragmentsAppend(initial, m);
      initial' := initial + [m];
      Loosen(m);
    }

    method AddUnder(m: Node, p: Node, ghost initial: seq<Node>, ghost except: set<Node>)
      requires WellMade(records) && Invariant(records, T(), W(), FragmentsOf(initial), except) && TopLevel(records, initial)
      requires m.Fragment? && m !in roots && m !in closed && p in Live(T()) && records.parentOf(m) == Some(p)
      modifies `children, `waiting
      ensures Invariant(records, T(), W(), FragmentsOf(initial), except) && Grown(old(T()), T()) && m in Live(T())
    {
      if m !in Under(children, p) {
        NotSeenYet(records, T(), W(), initial, except, m);
        HungKeeps(records, T(), W(), FragmentsOf(initial), except, m, p);
        Hang(m, p);
      } else {
        ListedWaits(records, T(), W(), FragmentsOf(initial), except, m, p);
        NothingGrown(T());
      }
    }

    method Hang(m: Node, p: Node)
      modifies `children, `waiting
      ensures T() == Hung(old(T()), m, p)
    {
      children := children[p := Under(children, p) + [m]];
      waiting := waiting + {m};
    }

    ghost method Loosen(m: Node)
      modifies `waiting
      ensures T() == Loosened(old(T()), m)
    {
      waiting := waiting + {m};
    }

    method HangFragments(rs: seq<Node>, initial: seq<Node>, ghost topAllowed: bool, ghost except: set<Node>) returns (initial': seq<Node>)
      requires WellMade(records) && Invariant(records, T(), W(), FragmentsOf(initial), except) && TopLevel(records, initial)
      requires forall m :: m in rs ==> Admissible(records, roots, closed, m, topAllowed)
      modifies `children, `waiting
      ensures Invariant(records, T(), W(), FragmentsOf(initial'), except) && TopLevel(records, initial') && Grown(old(T()), T())
      ensures (!topAllowed ==> initial' == initial) && SameStreams(initial, initial') && forall m :: m in rs ==> m in Live(T())
    {
      initial' := initial;
      NothingGrown(T());
      for i := 0 to |rs|
        invariant Invariant(records, T(), W(), FragmentsOf(initial'), except) && TopLevel(records, initial') && Grown(old(T()), T())
        invariant (!topAllowed ==> initial' == initial) && SameStreams(initial, initial') && AllLive(rs, i)
      {
        initial' := HangNext(old(T()), rs, i, initial', topAllowed, except);
      }
    }

    method HangNext(ghost before: Tree, rs: seq<Node>, i: nat, initial: seq<Node>, ghost topAllowed: bool, ghost except: set<Node>) returns (initial': seq<Node>)
      requires WellMade(records) && Invariant(records, T(), W(), FragmentsOf(initial), except) && TopLevel(records, initial)
      requires i < |rs| && Admissible(records, roots, closed, rs[i], topAllowed) && Grown(before, T()) && AllLive(rs, i)
      modifies `children, `waiting
      ensures Invariant(records, T(), W(), FragmentsOf(initial'), except) && TopLevel(records, initial') && Grown(before, T())
      ensures (!topAllowed ==> initial' == initial) && SameStreams(initial, initial') && AllLive(rs, i + 1)
    {
      ghost var t := T();
      initial' := AddDeferredFragmentNode(rs[i], initial, topAllowed, except);
      GrownOn(before, t, T());
    }

    /** The first `i` of these records are live. */
    ghost predicate AllLive(rs: seq<Node>, i: nat)
      reads this
    {
      forall j :: 0 <= j < i && j < |rs| ==> rs[j] in Live(T())
    }

    /** One group of `_add_incremental_records`: hung under its fragments, and started when one of them is a root. */
    method AddGroup(g: Group, ghost parents: seq<Node>, initial: seq<Node>, ghost topAllowed: bool, ghost except: set<Node>) returns (initial': seq<Node>)
      requires WellMade(records) && Invariant(records, T(), W(), FragmentsOf(initial), except) && TopLevel(records, initial)
      requires g !in registered && forall m :: m in records.recordsOf(g) ==> Admissible(records, roots, closed, m, topAllowed)
      modifies `children, `waiting, `pending, `running, `started, `registered
      ensures Invariant(records, T(), W(), FragmentsOf(initial'), except) && TopLevel(records, initial') && (!topAllowed ==> initial' == initial)
      ensures SameStreams(initial, initial') && Added(records, old(T()), old(W()), T(), W(), [NewGroup(g)], parents)
    {
      initial' := HangFragments(records.recordsOf(g), initial, topAllowed, except);
      var joined := JoinPending(records.recordsOf(g), g);
      JoinedKeeps(records, T(), W(), FragmentsOf(initial'), except, joined, g);
      GroupIsAdded(records, old(T()), W(), T(), joined, g, parents);
      Register(joined, g);
    }

    method Register(joined: map<Node, set<Group>>, g: Group)
      modifies `pending, `running, `started, `registered
      ensures W() == WithGroup(records, roots, old(W()), joined, g)
    {
      pending, registered := joined, registered + {g};
      var completes := CompletesRootNode(g);
      if completes {
        OnExecutionGroup(g);
      }
    }

    method JoinPending(members: seq<Node>, g: Group) returns (joined: map<Node, set<Group>>)
      ensures JoinedTo(pending, joined, members, g)
    {
      joined := pending;
      for i := 0 to |members|
        invariant JoinedTo(pending, joined, members[..i], g)
      {
        JoinedOne(pending, joined, members, i, g);
        joined := joined[members[i] := GroupsOf(joined, members[i]) + {g}];
      }
      assert members[..|members|] == members;
    }

    /** One stream of `_add_incremental_records`: at the top level, or under every fragment of the group that reveals it. */
    method AddStream(n: Node, parents: seq<Node>, initial: seq<Node>, topAllowed: bool, ghost except: set<Node>) returns (initial': seq<Node>)
      requires WellMade(records) && Invariant(records, T(), W(), FragmentsOf(initial), except) && TopLevel(records, initial)
      requires n.Stream? && n !in streams && n !in initial && (topAllowed ==> parents == [])
      requires forall p :: p in parents ==> Admissible(records, roots, closed, p, false)
      modifies `children, `waiting, `streams
      ensures Invariant(records, T(), W(), FragmentsOf(initial'), except) && TopLevel(records, initial')
      ensures initial' == if topAllowed then initial + [n] else initial
      ensures Added(records, old(T()), W(), T(), W(), [NewStream(n)], parents)
    {
      HangingStarts(records, T(), W(), FragmentsOf(initial), except, n);
      Show(n);
      initial' := initial;
      if topAllowed {
        DistinctAppend(initial, n);
        FragmentsAppend(initial, n);
        initial' := initial + [n];
      } else {
        HangStream(old(T()), n, parents, initial, except);
      }
      StreamIsAdded(records, old(T()), W(), T(), n, parents);
    }

    ghost method Show(n: Node)
      modifies `streams
      ensures T() == Shown(old(T()), n)
    {
      streams := streams + {n};
    }

    method HangStream(ghost t0: Tree, n: Node, parents: seq<Node>, initial: seq<Node>, ghost except: set<Node>)
      requires WellMade(records) && Invariant(records, T(), W(), FragmentsOf(initial), except) && TopLevel(records, initial)
      requires n.Stream? && Hanging(t0, T(), n, []) && forall p :: p in parents ==> Admissible(records, roots, closed, p, false)
      modifies `children, `waiting
      ensures Invariant(records, T(), W(), FragmentsOf(initial), except) && Hanging(t0, T(), n, parents)
    {
      for i := 0 to |parents|
        invariant Invariant(records, T(), W(), FragmentsOf(initial), except) && Hanging(t0, T(), n, parents[..i])
        invariant roots == old(roots) && closed == old(closed)
      {
        HangStreamUnder(t0, n, parents[..i], parents[i], initial, except);
        PrefixGrows(parents, i);
      }
      assert parents[..|parents|] == parents;
    }

    method HangStreamUnder(ghost t0: Tree, n: Node, ghost before: seq<Node>, p: Node, initial: seq<Node>, ghost except: set<Node>)
      requires WellMade(records) && Invariant(records, T(), W(), FragmentsOf(initial), except) && TopLevel(records, initial)
      requires n.Stream? && Hanging(t0, T(), n, before) && Admissible(records, roots, closed, p, false)
      modifies `children, `waiting
      ensures Invariant(records, T(), W(), FragmentsOf(initial), except) && Hanging(t0, T(), n, before + [p])
    {
      ghost var t := T();
      var same := AddDeferredFragmentNode(p, initial, false, except);
      HangingGrows(t0, t, n, before, T());
      HangingOn(records, W(), FragmentsOf(initial), except, t0, T(), n, before, if n in Under(children, p) then T() else Listed(T(), n, p), p);
      if n !in Under(children, p) {
        List(n, p);
      }
    }

    method List(n: Node, p: Node)
      modifies `children
      ensures T() == Listed(old(T()), n, p)
    {
      children := children[p := Under(children, p) + [n]];
    }

    /** `_add_incremental_records`: the groups wait under their fragments, the streams hang off `parents` or, at the top
        level, off nothing; `initial` are the new top-level fragments and streams. */
    method AddIncrementalRecords(revealed: seq<Revealed>, parents: seq<Node>, topAllowed: bool, ghost except: set<Node>) returns (initial: seq<Node>)
      requires WellMade(records) && Invariant(records, T(), W(), {}, except) && Revealable(records, T(), registered, revealed, parents, topAllowed)
      requires topAllowed ==> parents == []
      modifies `children, `waiting, `streams, `pending, `running, `started, `registered
      ensures Invariant(records, T(), W(), FragmentsOf(initial), except) && TopLevel(records, initial)
      ensures Added(records, old(T()), old(W()), T(), W(), revealed, parents) && Starts(initial, revealed, topAllowed)
    {
      initial := [];
      assert FragmentsOf([]) == {};
      NothingAdded(records, T(), W(), parents);
      for i := 0 to |revealed|
        invariant Invariant(records, T(), W(), FragmentsOf(initial), except) && TopLevel(records, initial)
        invariant Added(records, old(T()), old(W()), T(), W(), revealed[..i], parents) && Starts(initial, revealed[..i], topAllowed)
      {
        initial := AddRecord(old(T()), old(W()), revealed, i, parents, initial, topAllowed, except);
      }
      assert revealed[..|revealed|] == revealed;
    }

    method AddRecord(ghost t0: Tree, ghost w0: Work, revealed: seq<Revealed>, i: nat, parents: seq<Node>, initial: seq<Node>, topAllowed: bool,
                     ghost except: set<Node>)
      returns (initial': seq<Node>)
      requires WellMade(records) && Invariant(records, T(), W(), FragmentsOf(initial), except) && TopLevel(records, initial)
      requires i < |revealed| && Revealable(records, t0, w0.registered, revealed, parents, topAllowed) && (topAllowed ==> parents == [])
      requires Added(records, t0, w0, T(), W(), revealed[..i], parents) && Starts(initial, revealed[..i], topAllowed)
      modifies `children, `waiting, `streams, `pending, `running, `started, `registered
      ensures Invariant(records, T(), W(), FragmentsOf(initial'), except) && TopLevel(records, initial')
      ensures Added(records, t0, w0, T(), W(), revealed[..i + 1], parents) && Starts(initial', revealed[..i + 1], topAllowed)
    {
      ghost var t, w := T(), W();
      var x := revealed[i];
      assert x in revealed && x !in revealed[..i];
      match x {
        case NewGroup(g) => initial' := AddGroup(g, parents, initial, topAllowed, except);
        case NewStream(n) => initial' := AddStream(n, parents, initial, topAllowed, except);
      }
      StartsOn(initial, revealed, i, topAllowed, initial');
      AddedOn(records, t0, w0, t, w, T(), W(), revealed[..i], x, parents);
      PrefixGrows(revealed, i);
    }

    /** `get_new_root_nodes`: the records of the initial result, or of a stream's items.  The wave starts from the new
        top-level records, so every new root is one of them or hangs off a fragment the wave passed over. */
    method GetNewRootNodes(revealed: seq<Revealed>) returns (newRoots: seq<Node>, ghost passed: set<Node>, ghost mid: Tree, ghost initial: seq<Node>)
      requires Steady({}) && Revealable(records, T(), registered, revealed, [], true)
      modifies this
      ensures Steady({}) && Opened(old(T()), T(), newRoots, passed)
      ensures Added(records, old(T()), old(W()), mid, W(), revealed, []) && TopLevel(records, initial) && Starts(initial, revealed, true)
      ensures TreeFits(records, mid, FragmentsOf(initial)) && Wave(mid, T(), pending, initial, newRoots, passed)
      ensures history == OpenedHistory(old(history), old(T()), mid, passed)
    {
      ghost var t, w, h := T(), W(), history;
      var top := AddIncrementalRecords(revealed, [], true, {});
      initial, mid := top, T();
      ghost var w1 := W();
      assert history == h;
      newRoots, passed := PromoteNonEmptyToRoot(top, {});
      assert history == h;
      OpenedIsRecorded(records, t, w, mid, w1, revealed, top, pending, newRoots, passed, T(), h);
      AddedThen(records, t, w, mid, w1, W(), revealed);
      history := OpenedHistory(h, t, mid, passed);
    }

    // ----- completion -----

    /** `add_completed_group`: the group's result waits for delivery, and what it revealed joins the graph: its streams
        under every fragment of the group. */
    method AddCompletedGroup(g: Group, revealed: seq<Revealed>)
      requires Steady({}) && g in running && Revealable(records, T(), registered, revealed, records.recordsOf(g), false)
      modifies this
      ensures Steady(Elements(records.recordsOf(g))) && history == old(history)
      ensures exists p, q :: LeftFrom(old(pending), p, records.recordsOf(g), g) && JoinedTo(old(successful), q, records.recordsOf(g), g)
                             && Added(records, old(T()), Completed(old(W()), p, q, g), T(), W(), revealed, records.recordsOf(g))
    {
      ghost var t, w0, h := T(), W(), history;
      var p, q := LeaveAndJoin(records.recordsOf(g), g);
      CompletedKeeps(records, T(), W(), p, q, g);
      Mark(p, q, g);
      assert T() == t && history == h;
      var none := AddIncrementalRecords(revealed, records.recordsOf(g), false, Elements(records.recordsOf(g)));
      assert history == h && FragmentsOf(none) == {};
      GrownIsRecorded(records, t, w0, T(), W(), Elements(records.recordsOf(g)), h);
    }

    method Mark(p: map<Node, set<Group>>, q: map<Node, set<Group>>, g: Group)
      modifies `pending, `successful, `running
      ensures W() == Completed(old(W()), p, q, g)
    {
      pending, successful, running := p, q, running - multiset{g};
    }

    method LeaveAndJoin(members: seq<Node>, g: Group) returns (p: map<Node, set<Group>>, q: map<Node, set<Group>>)
      ensures LeftFrom(pending, p, members, g) && JoinedTo(successful, q, members, g)
    {
      p, q := pending, successful;
      for i := 0 to |members|
        invariant LeftFrom(pending, p, members[..i], g) && JoinedTo(successful, q, members[..i], g)
      {
        LeftOne(pending, p, members, i, g);
        JoinedOne(successful, q, members, i, g);
        p := p[members[i] := GroupsOf(p, members[i]) - {g}];
        q := q[members[i] := GroupsOf(q, members[i]) + {g}];
      }
      assert members[..|members|] == members;
    }

    /** `complete_deferred_fragment`: None unless the fragment is a root and waits for nothing more; otherwise it leaves
        with the results it hands over, and a wave from what hangs off it promotes exactly what that reaches. */
    method CompleteDeferredFragment(f: Node, ghost except: set<Node>) returns (completion: Option<(seq<Node>, set<Group>)>, ghost passed: set<Node>)
      requires Steady(except) && f.Fragment?
      modifies this
      ensures Steady(except - {f}) && pending == old(pending)
      ensures completion.None? <==> f !in old(roots) || GroupsOf(pending, f) != {}
      ensures completion.None? ==> T() == old(T()) && W() == old(W()) && history == old(history)
      ensures completion.Some? ==> completion.value.1 == GroupsOf(old(successful), f) && delivered == old(delivered) + multiset(completion.value.1)
      ensures completion.Some? ==> HandedOver(old(successful), successful, completion.value.1)
      ensures completion.Some? ==> Wave(Released(old(T()), f), T(), pending, Under(old(children), f), completion.value.0, passed) && failed == old(failed)
      ensures completion.Some? ==> history == CompletedHistory(old(history), f, passed)
    {
      LessStuck(except, f);
      if f !in roots || GroupsOf(pending, f) != {} {
        return None, {};
      }
      var results, newRoots;
      newRoots, results, passed := Complete(f, except);
      LessStuck(except, f);
      completion := Some((newRoots, results));
    }

    method Complete(f: Node, ghost except: set<Node>) returns (newRoots: seq<Node>, results: set<Group>, ghost passed: set<Node>)
      requires Steady(except) && f.Fragment? && f in roots && GroupsOf(pending, f) == {}
      modifies this
      ensures Steady(except) && pending == old(pending) && failed == old(failed)
      ensures results == GroupsOf(old(successful), f) && delivered == old(delivered) + multiset(results) && HandedOver(old(successful), successful, results)
      ensures Wave(Released(old(T()), f), T(), pending, Under(old(children), f), newRoots, passed)
      ensures history == CompletedHistory(old(history), f, passed)
    {
      ghost var t, w, h := T(), W(), history;
      var kids := Under(children, f);
      KidsAreKnownUnder(records, t, w, except, f, kids);
      results := Release(f, kids, except);
      assert history == h && T() == Released(t, f);
      newRoots, passed := PromoteNonEmptyToRoot(kids, except);
      assert history == h;
      CompletedIsRecorded(records, t, w, except, f, kids, pending, newRoots, passed, T(), h);
      history := CompletedHistory(h, f, passed);
    }

    lemma LessStuck(except: set<Node>, f: Node)
      requires Steady(except)
      ensures f !in roots || GroupsOf(pending, f) != {} ==> Steady(except - {f})
    {
      Opens(records, T(), W(), {}, except);
      if f !in roots || GroupsOf(pending, f) != {} { Closes(records, T(), W(), {}, except - {f}); }
    }

    method Release(f: Node, ghost kids: seq<Node>, ghost except: set<Node>) returns (results: set<Group>)
      requires WellMade(records) && Invariant(records, T(), W(), {}, except) && f in roots && f.Fragment? && GroupsOf(pending, f) == {}
      requires kids == Under(children, f)
      modifies `roots, `closed, `delivered, `successful
      ensures Invariant(records, T(), W(), FragmentsOf(kids), except) && results == GroupsOf(old(successful), f)
      ensures HandedOver(old(successful), successful, results)
      ensures T() == Released(old(T()), f) && W() == Delivered(old(W()), f, successful)
    {
      var rest;
      results, rest := HandOver(f);
      ReleasedKeeps(records, T(), W(), f, except, rest);
      Leave(f, results, rest);
    }

    method HandOver(f: Node) returns (results: set<Group>, rest: map<Node, set<Group>>)
      ensures results == GroupsOf(successful, f) && HandedOver(successful, rest, results)
    {
      results := GroupsOf(successful, f);
      rest := map m | m in successful :: successful[m] - results;
    }

    method Leave(f: Node, results: set<Group>, rest: map<Node, set<Group>>)
      requires results == GroupsOf(successful, f)
      modifies `roots, `closed, `delivered, `successful
      ensures T() == Released(old(T()), f) && W() == Delivered(old(W()), f, rest) && successful == rest
    {
      roots, closed := roots - {f}, closed + {f};
      delivered := delivered + multiset(results);
      successful := rest;
    }

    // ----- failure and streams -----

    /** `remove_deferred_fragment`. */
    method RemoveDeferredFragment(f: Node) returns (wasRoot: bool)
      requires Steady({}) && f.Fragment?
      modifies `roots, `closed, `lost, `failed
      ensures Steady({}) && (wasRoot <==> f in old(roots))
      ensures T() == (if wasRoot then Dropped(old(T()), f) else old(T())) && W() == old(W()).(failed := old(failed) || wasRoot)
    {
      if f !in roots {
        return false;
      }
      DroppedKeeps(records, T(), W(), f);
      DroppedIsRecorded(records, T(), W(), history, f);
      Drop(f);
      return true;
    }

    method Drop(f: Node)
      modifies `roots, `closed, `lost, `failed
      ensures T() == Dropped(old(T()), f) && W() == old(W()).(failed := true)
    {
      roots, closed, lost, failed := roots - {f}, closed + {f}, lost + {f}, true;
    }

    /** A failed group's result has been handled; none of its fragments is a root any more. */
    method Discard(g: Group)
      requires Steady({}) && !CompletesRoot(records, roots, g)
      modifies `running, `failed
      ensures Steady({}) && W() == old(W()).(running := old(running) - multiset{g}, failed := true)
    {
      ghost var t, h := T(), history;
      DiscardedKeeps(records, t, W(), g);
      Forget(g);
      assert T() == t && history == h;
    }

    method Forget(g: Group)
      modifies `running, `failed
      ensures W() == old(W()).(running := old(running) - multiset{g}, failed := true)
    {
      running, failed := running - multiset{g}, true;
    }

    /** `remove_stream`. */
    method RemoveStream(n: Node)
      requires Steady({}) && n in roots && n.Stream?
      modifies `roots
      ensures Steady({}) && T() == Finished(old(T()), n)
    {
      FinishedKeeps(records, T(), W(), n);
      roots := roots - {n};
    }
  }
}
