/** The execution groups of an incremental response: what each fragment waits for, what runs, what is delivered. */
module GroupRuns {
  import opened Sequences
  import opened RecordTree

  /** Per fragment the groups it waits for and the completed ones it has not delivered; the groups whose results have not
      been handled yet.  `registered`, `started` and `delivered` count what has happened to groups, `failed` whether any
      has. */
  datatype Work = Work(pending: map<Node, set<Group>>, successful: map<Node, set<Group>>, running: multiset<Group>,
                       registered: set<Group>, started: multiset<Group>, delivered: multiset<Group>, failed: bool)

  function GroupsOf(groups: map<Node, set<Group>>, m: Node): set<Group>
  {
    if m in groups then groups[m] else {}
  }

  /** Some fragment of the group is a root, so the group is being run. */
  ghost predicate CompletesRoot(r: Records, roots: set<Node>, g: Group)
  {
    exists m :: m in r.recordsOf(g) && m in roots
  }

  // ----- what every operation keeps -----

  /** A group is listed for all of its fragments at once, and for no other. */
  ghost predicate Shared(r: Records, groups: map<Node, set<Group>>)
  {
    && (forall m, g :: g in GroupsOf(groups, m) ==> m in r.recordsOf(g))
    && (forall m, m', g :: g in GroupsOf(groups, m) && m' in r.recordsOf(g) ==> g in GroupsOf(groups, m'))
  }

  /** Only known fragments wait. */
  ghost predicate WaitersSeen(pending: map<Node, set<Group>>, seen: set<Node>)
  {
    forall m, g :: g in GroupsOf(pending, m) ==> m in seen
  }

  /** Every group a root waits for is being run. */
  ghost predicate RootsRun(roots: set<Node>, pending: map<Node, set<Group>>, running: multiset<Group>)
  {
    forall m, g :: m in roots && g in GroupsOf(pending, m) ==> g in running
  }

  /** Every root fragment waits for some group, those of `except` aside. */
  ghost predicate NoneStuck(roots: set<Node>, pending: map<Node, set<Group>>, except: set<Node>)
  {
    forall m {:trigger GroupsOf(pending, m)} :: m in roots && m.Fragment? && m !in except ==> GroupsOf(pending, m) != {}
  }

  ghost predicate Tracked(w: Work)
  {
    && (forall g :: g in w.running ==> g in w.registered)
    && (forall g :: g in w.started ==> g in w.registered)
    && (forall m, g :: g in GroupsOf(w.pending, m) ==> g in w.registered)
    && (forall m, g :: g in GroupsOf(w.successful, m) ==> g in w.registered)
  }

  ghost predicate WorkFits(r: Records, roots: set<Node>, seen: set<Node>, w: Work, except: set<Node>)
  {
    && Tracked(w) && Shared(r, w.pending) && Shared(r, w.successful) && WaitersSeen(w.pending, seen)
    && RootsRun(roots, w.pending, w.running) && NoneStuck(roots, w.pending, except)
  }

  /** One of the group's fragments, to speak for all of them. */
  function Any(r: Records, g: Group): Node
    requires WellMade(r)
  {
    r.recordsOf(g)[0]
  }

  /** While nothing has failed: a group is run once, one of its fragments is a root as long as it runs, and it is
      pending until it has run; no closed fragment waits for anything. */
  ghost predicate RunsOnce(r: Records, roots: set<Node>, closed: set<Node>, w: Work)
    requires WellMade(r)
  {
    && (forall m :: m in closed ==> GroupsOf(w.pending, m) == {})
    && (forall g :: g in w.started ==> w.started[g] == 1)
    && (forall g :: g in w.running ==> w.running[g] == 1 && g in w.started && g in GroupsOf(w.pending, Any(r, g)) && CompletesRoot(r, roots, g))
    && (forall m, g :: g in GroupsOf(w.pending, m) && g in w.started ==> g in w.running)
    && (forall g :: g in w.registered ==> g in w.started || g in GroupsOf(w.pending, Any(r, g)))
  }

  /** While nothing has failed: a group that was started is running, undelivered or delivered -- one of these, and
      delivered once; one of its fragments is a root as long as it is undelivered. */
  ghost predicate DeliversOnce(r: Records, roots: set<Node>, w: Work)
    requires WellMade(r)
  {
    && (forall m, g :: g in GroupsOf(w.successful, m) ==> g in w.started && g !in w.running && g !in w.delivered && CompletesRoot(r, roots, g))
    && (forall g :: g in w.started ==> g in w.running || g in GroupsOf(w.successful, Any(r, g)) || g in w.delivered)
    && (forall g :: g in w.delivered ==> w.delivered[g] == 1 && g in w.started && g !in w.running)
  }

  ghost predicate Clean(r: Records, roots: set<Node>, closed: set<Node>, w: Work)
    requires WellMade(r)
  {
    w.failed || (RunsOnce(r, roots, closed, w) && DeliversOnce(r, roots, w))
  }

  lemma NoWorkYet(r: Records, w: Work)
    requires WellMade(r) && w == Work(map[], map[], multiset{}, {}, multiset{}, multiset{}, false)
    ensures WorkFits(r, {}, {}, w, {}) && Clean(r, {}, {}, w)
  {
    assert forall m :: GroupsOf(w.pending, m) == {} && GroupsOf(w.successful, m) == {};
  }

  /** More fragments are known. */
  lemma SeenMore(r: Records, roots: set<Node>, seen: set<Node>, w: Work, except: set<Node>, seen': set<Node>)
    requires WorkFits(r, roots, seen, w, except) && seen <= seen'
    ensures WorkFits(r, roots, seen', w, except)
  {
    forall m, g | g in GroupsOf(w.pending, m) ensures m in seen' { assert m in seen; }
  }

  // ----- promotion -----

  /** Starts a group: its result will arrive once more. */
  function Started(w: Work, g: Group): Work
  {
    w.(running := w.running + multiset{g}, started := w.started + multiset{g})
  }

  lemma StartedFits(r: Records, roots: set<Node>, seen: set<Node>, w: Work, except: set<Node>, g: Group)
    requires WorkFits(r, roots, seen, w, except) && g in w.registered
    ensures WorkFits(r, roots, seen, Started(w, g), except)
  {
  }

  lemma StartedRunsOnce(r: Records, roots: set<Node>, closed: set<Node>, w: Work, g: Group)
    requires WellMade(r) && RunsOnce(r, roots, closed, w)
    requires g !in w.running && g !in w.started && CompletesRoot(r, roots, g) && g in GroupsOf(w.pending, Any(r, g))
    ensures RunsOnce(r, roots, closed, Started(w, g))
  {
  }

  lemma StartedDeliversOnce(r: Records, roots: set<Node>, w: Work, g: Group)
    requires WellMade(r) && DeliversOnce(r, roots, w) && g !in w.started
    ensures DeliversOnce(r, roots, Started(w, g))
  {
  }

  lemma StartedStaysClean(r: Records, roots: set<Node>, closed: set<Node>, w: Work, n: Node, g: Group)
    requires WellMade(r) && Clean(r, roots, closed, w) && n in roots && g in GroupsOf(w.pending, n) && Shared(r, w.pending)
    requires !w.failed ==> g !in w.running
    ensures Clean(r, roots, closed, Started(w, g))
  {
    assert n in r.recordsOf(g) && Any(r, g) in r.recordsOf(g);
    if !w.failed {
      StartedRunsOnce(r, roots, closed, w, g);
      StartedDeliversOnce(r, roots, w, g);
    }
  }

  lemma MoreRoots(r: Records, roots: set<Node>, n: Node)
    ensures forall g :: CompletesRoot(r, roots, g) ==> CompletesRoot(r, roots + {n}, g)
  {
    forall g | CompletesRoot(r, roots, g) ensures CompletesRoot(r, roots + {n}, g) {
      var m :| m in r.recordsOf(g) && m in roots;
      assert m in roots + {n};
    }
  }

  lemma CleanWithOneMore(r: Records, roots: set<Node>, closed: set<Node>, w: Work, n: Node)
    requires WellMade(r) && Clean(r, roots, closed, w)
    ensures Clean(r, roots + {n}, closed, w)
  {
    MoreRoots(r, roots, n);
  }

  lemma PromotedRuns(r: Records, roots: set<Node>, seen: set<Node>, w: Work, except: set<Node>, n: Node, seen': set<Node>)
    requires WorkFits(r, roots, seen, w, except) && seen <= seen'
    requires n.Fragment? ==> GroupsOf(w.pending, n) != {} && forall g :: g in GroupsOf(w.pending, n) ==> g in w.running
    requires n.Stream? ==> GroupsOf(w.pending, n) == {}
    ensures WorkFits(r, roots + {n}, seen', w, except)
  {
    SeenMore(r, roots, seen, w, except, seen');
  }

  lemma StreamsWaitForNothing(r: Records, pending: map<Node, set<Group>>, n: Node)
    requires WellMade(r) && Shared(r, pending) && n.Stream?
    ensures GroupsOf(pending, n) == {}
  {
    forall g | g in GroupsOf(pending, n) ensures n in r.recordsOf(g) {}
  }

  lemma SkippedStaysClean(r: Records, roots: set<Node>, closed: set<Node>, w: Work, n: Node)
    requires WellMade(r) && Clean(r, roots, closed, w) && GroupsOf(w.pending, n) == {}
    ensures Clean(r, roots, closed + {n}, w)
  {
  }

  /** Where the start of the groups of `n` stands, once it counts as a root: those not in `todo` run. */
  ghost predicate Starting(r: Records, roots: set<Node>, seen: set<Node>, closed: set<Node>, w: Work, n: Node, except: set<Node>, todo: set<Group>)
    requires WellMade(r)
  {
    && WorkFits(r, roots, seen, w, except) && Clean(r, roots + {n}, closed, w) && todo <= GroupsOf(w.pending, n)
    && (forall g :: g in GroupsOf(w.pending, n) && g !in todo ==> g in w.running)
    && (!w.failed ==> forall g :: g in todo && g in w.running ==> CompletesRoot(r, roots, g))
  }

  lemma StartingBegins(r: Records, roots: set<Node>, seen: set<Node>, closed: set<Node>, w: Work, n: Node, except: set<Node>)
    requires WellMade(r) && WorkFits(r, roots, seen, w, except) && Clean(r, roots, closed, w)
    ensures Starting(r, roots, seen, closed, w, n, except, GroupsOf(w.pending, n))
  {
    CleanWithOneMore(r, roots, closed, w, n);
  }

  lemma StartingOn(r: Records, roots: set<Node>, seen: set<Node>, closed: set<Node>, w: Work, n: Node, except: set<Node>, todo: set<Group>, g: Group)
    requires WellMade(r) && Starting(r, roots, seen, closed, w, n, except, todo) && g in todo
    ensures CompletesRoot(r, roots, g) ==> Starting(r, roots, seen, closed, w, n, except, todo - {g})
    ensures !CompletesRoot(r, roots, g) ==> Starting(r, roots, seen, closed, Started(w, g), n, except, todo - {g})
  {
    if CompletesRoot(r, roots, g) {
      RunningAlready(r, roots, seen, w, except, g, n);
    } else {
      StartedFits(r, roots, seen, w, except, g);
      StartedStaysClean(r, roots + {n}, closed, w, n, g);
    }
  }

  /** Those of `groups` that no root waits for. */
  ghost function Idle(r: Records, roots: set<Node>, groups: set<Group>): set<Group>
  {
    set g | g in groups && !CompletesRoot(r, roots, g)
  }

  /** All of `groups` are started. */
  function StartedAll(w: Work, groups: set<Group>): Work
  {
    w.(running := w.running + multiset(groups), started := w.started + multiset(groups))
  }

  lemma IdleOneMore(r: Records, roots: set<Node>, groups: set<Group>, g: Group)
    requires g !in groups
    ensures Idle(r, roots, groups + {g}) == if CompletesRoot(r, roots, g) then Idle(r, roots, groups) else Idle(r, roots, groups) + {g}
  {
  }

  lemma StartedOneMore(w: Work, groups: set<Group>, g: Group)
    requires g !in groups
    ensures StartedAll(w, groups + {g}) == Started(StartedAll(w, groups), g) == StartedAll(Started(w, g), groups)
  {
    assert multiset(groups + {g}) == multiset(groups) + multiset{g};
  }

  lemma StartedNone(w: Work)
    ensures StartedAll(w, {}) == w
  {
    assert w.running + multiset({}) == w.running && w.started + multiset({}) == w.started;
  }

  /** Starting the idle ones of `todo` is starting `g`, if idle, and then the rest. */
  lemma IdleFirst(r: Records, roots: set<Node>, w: Work, todo: set<Group>, g: Group)
    requires g in todo
    ensures StartedAll(w, Idle(r, roots, todo)) == StartedAll(if CompletesRoot(r, roots, g) then w else Started(w, g), Idle(r, roots, todo - {g}))
  {
    var rest := todo - {g};
    assert rest + {g} == todo;
    IdleOneMore(r, roots, rest, g);
    if !CompletesRoot(r, roots, g) { StartedOneMore(w, Idle(r, roots, rest), g); }
  }

  lemma IdleNone(r: Records, roots: set<Node>, w: Work)
    ensures StartedAll(w, Idle(r, roots, {})) == w
  {
    assert Idle(r, roots, {}) == {};
    StartedNone(w);
  }

  lemma {:induction false} StartingAll(r: Records, roots: set<Node>, seen: set<Node>, closed: set<Node>, w: Work, n: Node, except: set<Node>, todo: set<Group>)
    requires WellMade(r) && Starting(r, roots, seen, closed, w, n, except, todo)
    ensures Starting(r, roots, seen, closed, StartedAll(w, Idle(r, roots, todo)), n, except, {})
    decreases todo
  {
    if todo == {} {
      IdleNone(r, roots, w);
    } else {
      var g :| g in todo;
      IdleFirst(r, roots, w, todo, g);
      StartingOn(r, roots, seen, closed, w, n, except, todo, g);
      StartingAll(r, roots, seen, closed, if CompletesRoot(r, roots, g) then w else Started(w, g), n, except, todo - {g});
    }
  }

  /** The groups of fragment `n` that no root waits for are started; a stream has none to start. */
  ghost function StartedFor(r: Records, roots: set<Node>, w: Work, n: Node): Work
  {
    if n.Fragment? then StartedAll(w, Idle(r, roots, GroupsOf(w.pending, n))) else w
  }

  lemma StartedForKeeps(r: Records, roots: set<Node>, seen: set<Node>, closed: set<Node>, w: Work, except: set<Node>, n: Node, w': Work)
    requires WellMade(r) && WorkFits(r, roots, seen, w, except) && Clean(r, roots, closed, w) && w' == StartedFor(r, roots, w, n)
    ensures WorkFits(r, roots, seen, w', except) && Clean(r, roots + {n}, closed, w')
    ensures n.Fragment? ==> forall g :: g in GroupsOf(w.pending, n) ==> g in w'.running
  {
    CleanWithOneMore(r, roots, closed, w, n);
    if n.Fragment? {
      StartingBegins(r, roots, seen, closed, w, n, except);
      StartingAll(r, roots, seen, closed, w, n, except, GroupsOf(w.pending, n));
    }
  }

  lemma RunningAlready(r: Records, roots: set<Node>, seen: set<Node>, w: Work, except: set<Node>, g: Group, n: Node)
    requires WorkFits(r, roots, seen, w, except) && g in GroupsOf(w.pending, n) && CompletesRoot(r, roots, g)
    ensures g in w.running
  {
    var m :| m in r.recordsOf(g) && m in roots;
    assert g in GroupsOf(w.pending, m);
  }

  // ----- new groups -----

  /** `g` has joined what its fragments wait for. */
  ghost predicate JoinedTo(groups: map<Node, set<Group>>, groups': map<Node, set<Group>>, members: seq<Node>, g: Group)
  {
    forall m, h :: h in GroupsOf(groups', m) <==> h in GroupsOf(groups, m) || (h == g && m in members)
  }

  /** One member more. */
  lemma JoinedOne(groups: map<Node, set<Group>>, groups': map<Node, set<Group>>, members: seq<Node>, i: nat, g: Group)
    requires i < |members| && JoinedTo(groups, groups', members[..i], g)
    ensures JoinedTo(groups, groups'[members[i] := GroupsOf(groups', members[i]) + {g}], members[..i + 1], g)
  {
    var now := groups'[members[i] := GroupsOf(groups', members[i]) + {g}];
    PrefixGrows(members, i);
    forall m, h ensures h in GroupsOf(now, m) <==> h in GroupsOf(groups, m) || (h == g && m in members[..i + 1]) {
      assert h in GroupsOf(now, m) <==> h in GroupsOf(groups', m) || (h == g && m == members[i]);
    }
  }

  lemma LeftOne(groups: map<Node, set<Group>>, groups': map<Node, set<Group>>, members: seq<Node>, i: nat, g: Group)
    requires i < |members| && LeftFrom(groups, groups', members[..i], g)
    ensures LeftFrom(groups, groups'[members[i] := GroupsOf(groups', members[i]) - {g}], members[..i + 1], g)
  {
    var now := groups'[members[i] := GroupsOf(groups', members[i]) - {g}];
    PrefixGrows(members, i);
    forall m, h ensures h in GroupsOf(now, m) <==> h in GroupsOf(groups, m) && !(h == g && m in members[..i + 1]) {
      assert h in GroupsOf(now, m) <==> h in GroupsOf(groups', m) && !(h == g && m == members[i]);
    }
  }

  /** The group is pending, and started when one of its fragments is a root. */
  ghost function WithGroup(r: Records, roots: set<Node>, w: Work, pending: map<Node, set<Group>>, g: Group): Work
  {
    var joined := w.(pending := pending, registered := w.registered + {g});
    if CompletesRoot(r, roots, g) then Started(joined, g) else joined
  }

  lemma JoinedShared(r: Records, groups: map<Node, set<Group>>, groups': map<Node, set<Group>>, g: Group)
    requires Shared(r, groups) && JoinedTo(groups, groups', r.recordsOf(g), g)
    ensures Shared(r, groups')
  {
    forall m, h | h in GroupsOf(groups', m) ensures m in r.recordsOf(h) {
      assert h != g ==> h in GroupsOf(groups, m);
    }
    forall m, m', h | h in GroupsOf(groups', m) && m' in r.recordsOf(h) ensures h in GroupsOf(groups', m') {
      assert h != g ==> h in GroupsOf(groups, m) && h in GroupsOf(groups, m');
    }
  }

  lemma JoinedSeen(r: Records, seen: set<Node>, pending: map<Node, set<Group>>, pending': map<Node, set<Group>>, g: Group)
    requires WaitersSeen(pending, seen) && JoinedTo(pending, pending', r.recordsOf(g), g) && forall m :: m in r.recordsOf(g) ==> m in seen
    ensures WaitersSeen(pending', seen)
  {
    forall m, h | h in GroupsOf(pending', m) ensures m in seen { assert h in GroupsOf(pending, m) || m in r.recordsOf(g); }
  }

  lemma JoinedRootsRun(r: Records, roots: set<Node>, pending: map<Node, set<Group>>, pending': map<Node, set<Group>>, running: multiset<Group>, g: Group)
    requires RootsRun(roots, pending, running) && JoinedTo(pending, pending', r.recordsOf(g), g)
    ensures RootsRun(roots, pending', if CompletesRoot(r, roots, g) then running + multiset{g} else running)
  {
    forall m, h | m in roots && h in GroupsOf(pending', m) ensures h in running || (h == g && CompletesRoot(r, roots, g)) {
      assert h in GroupsOf(pending, m) || m in r.recordsOf(g);
    }
  }

  lemma JoinedNoneStuck(r: Records, roots: set<Node>, pending: map<Node, set<Group>>, pending': map<Node, set<Group>>, except: set<Node>, g: Group)
    requires NoneStuck(roots, pending, except) && JoinedTo(pending, pending', r.recordsOf(g), g)
    ensures NoneStuck(roots, pending', except)
  {
    forall m | m in roots && m.Fragment? && m !in except ensures GroupsOf(pending', m) != {} {
      assert GroupsOf(pending, m) != {};
      var h :| h in GroupsOf(pending, m);
      assert h in GroupsOf(pending', m);
    }
  }

  lemma JoinedTracked(w: Work, members: seq<Node>, w': Work, g: Group)
    requires Tracked(w) && JoinedTo(w.pending, w'.pending, members, g) && w'.successful == w.successful && w'.registered == w.registered + {g}
    requires w'.running == w.running || w'.running == w.running + multiset{g}
    requires w'.started == w.started || w'.started == w.started + multiset{g}
    ensures Tracked(w')
  {
    forall m, h | h in GroupsOf(w'.pending, m) ensures h in w'.registered { assert h in GroupsOf(w.pending, m) || h == g; }
    forall h | h in w'.running ensures h in w'.registered { assert h in w.running || h == g; }
    forall h | h in w'.started ensures h in w'.registered { assert h in w.started || h == g; }
  }

  lemma JoinedFits(r: Records, roots: set<Node>, seen: set<Node>, w: Work, except: set<Node>, pending: map<Node, set<Group>>, g: Group, w': Work)
    requires WorkFits(r, roots, seen, w, except) && JoinedTo(w.pending, pending, r.recordsOf(g), g) && w' == WithGroup(r, roots, w, pending, g)
    requires forall m :: m in r.recordsOf(g) ==> m in seen
    ensures WorkFits(r, roots, seen, w', except)
  {
    JoinedShared(r, w.pending, pending, g);
    JoinedSeen(r, seen, w.pending, pending, g);
    JoinedRootsRun(r, roots, w.pending, pending, w.running, g);
    JoinedNoneStuck(r, roots, w.pending, pending, except, g);
    JoinedTracked(w, r.recordsOf(g), w', g);
  }

  lemma JoinedRunsOnce(r: Records, roots: set<Node>, closed: set<Node>, w: Work, pending: map<Node, set<Group>>, g: Group)
    requires WellMade(r) && RunsOnce(r, roots, closed, w) && JoinedTo(w.pending, pending, r.recordsOf(g), g) && g !in w.registered
    requires Tracked(w) && forall m :: m in r.recordsOf(g) ==> m !in closed
    ensures RunsOnce(r, roots, closed, w.(pending := pending, registered := w.registered + {g}))
  {
    assert Any(r, g) in r.recordsOf(g);
    forall m | m in closed ensures GroupsOf(pending, m) == {} { assert GroupsOf(w.pending, m) == {}; }
  }

  /** A group that joins its fragments for the first time has nothing delivered or waiting for delivery. */
  lemma JoinedDeliversOnce(r: Records, roots: set<Node>, w: Work, joined: Work)
    requires WellMade(r) && DeliversOnce(r, roots, w)
    requires joined.successful == w.successful && joined.started == w.started && joined.running == w.running && joined.delivered == w.delivered
    ensures DeliversOnce(r, roots, joined)
  {
  }

  lemma JoinedClean(r: Records, roots: set<Node>, closed: set<Node>, w: Work, pending: map<Node, set<Group>>, g: Group)
    requires WellMade(r) && Clean(r, roots, closed, w) && JoinedTo(w.pending, pending, r.recordsOf(g), g) && g !in w.registered
    requires Tracked(w) && forall m :: m in r.recordsOf(g) ==> m !in closed
    ensures Clean(r, roots, closed, WithGroup(r, roots, w, pending, g))
  {
    assert Any(r, g) in r.recordsOf(g);
    if !w.failed {
      var joined := w.(pending := pending, registered := w.registered + {g});
      JoinedRunsOnce(r, roots, closed, w, pending, g);
      JoinedDeliversOnce(r, roots, w, joined);
      if CompletesRoot(r, roots, g) {
        StartedRunsOnce(r, roots, closed, joined, g);
        StartedDeliversOnce(r, roots, joined, g);
      }
    }
  }

  // ----- completion -----

  /** `g` has left what its fragments wait for. */
  ghost predicate LeftFrom(groups: map<Node, set<Group>>, groups': map<Node, set<Group>>, members: seq<Node>, g: Group)
  {
    forall m, h :: h in GroupsOf(groups', m) <==> h in GroupsOf(groups, m) && !(h == g && m in members)
  }

  /** Once `g` has completed: no longer pending, not yet delivered. */
  function Completed(w: Work, pending: map<Node, set<Group>>, successful: map<Node, set<Group>>, g: Group): Work
  {
    w.(pending := pending, successful := successful, running := w.running - multiset{g})
  }

  lemma LeftShared(r: Records, groups: map<Node, set<Group>>, groups': map<Node, set<Group>>, g: Group)
    requires Shared(r, groups) && LeftFrom(groups, groups', r.recordsOf(g), g)
    ensures Shared(r, groups') && forall m :: g !in GroupsOf(groups', m)
  {
    forall m ensures g !in GroupsOf(groups', m) { assert g in GroupsOf(groups, m) ==> m in r.recordsOf(g); }
    forall m, h | h in GroupsOf(groups', m) ensures m in r.recordsOf(h) && h != g { assert h in GroupsOf(groups, m); }
    forall m, m', h | h in GroupsOf(groups', m) && m' in r.recordsOf(h) ensures h in GroupsOf(groups', m') {
      assert h in GroupsOf(groups, m) && h in GroupsOf(groups, m');
    }
  }

  lemma CompletedRuns(r: Records, roots: set<Node>, w: Work, pending: map<Node, set<Group>>, g: Group)
    requires RootsRun(roots, w.pending, w.running) && NoneStuck(roots, w.pending, {}) && LeftFrom(w.pending, pending, r.recordsOf(g), g)
    requires forall m :: g !in GroupsOf(pending, m)
    ensures RootsRun(roots, pending, w.running - multiset{g}) && NoneStuck(roots, pending, Elements(r.recordsOf(g)))
  {
    forall m, h | m in roots && h in GroupsOf(pending, m) ensures h in w.running - multiset{g} { assert h in GroupsOf(w.pending, m); }
  }

  lemma CompletedTracked(r: Records, w: Work, pending: map<Node, set<Group>>, successful: map<Node, set<Group>>, g: Group)
    requires Tracked(w) && LeftFrom(w.pending, pending, r.recordsOf(g), g) && JoinedTo(w.successful, successful, r.recordsOf(g), g) && g in w.running
    ensures Tracked(Completed(w, pending, successful, g))
  {
    forall h | h in w.running - multiset{g} ensures h in w.running {}
    forall m, h | h in GroupsOf(pending, m) ensures h in w.registered { assert h in GroupsOf(w.pending, m); }
    forall m, h | h in GroupsOf(successful, m) ensures h in w.registered { if h != g { assert h in GroupsOf(w.successful, m); } }
  }

  lemma CompletedFits(r: Records, roots: set<Node>, seen: set<Node>, w: Work, pending: map<Node, set<Group>>, successful: map<Node, set<Group>>, g: Group)
    requires WorkFits(r, roots, seen, w, {}) && g in w.running
    requires LeftFrom(w.pending, pending, r.recordsOf(g), g) && JoinedTo(w.successful, successful, r.recordsOf(g), g)
    ensures WorkFits(r, roots, seen, Completed(w, pending, successful, g), Elements(r.recordsOf(g)))
  {
    LeftShared(r, w.pending, pending, g);
    JoinedShared(r, w.successful, successful, g);
    CompletedRuns(r, roots, w, pending, g);
    CompletedTracked(r, w, pending, successful, g);
    forall m, h | h in GroupsOf(pending, m) ensures m in seen { assert h in GroupsOf(w.pending, m); }
  }

  lemma StillRunning(r: Records, roots: set<Node>, closed: set<Node>, w: Work, pending: map<Node, set<Group>>, g: Group)
    requires WellMade(r) && RunsOnce(r, roots, closed, w) && g in w.running && LeftFrom(w.pending, pending, r.recordsOf(g), g)
    ensures forall h :: h in w.running - multiset{g} <==> h in w.running && h != g
    ensures forall h :: h in w.running && h != g ==> (w.running - multiset{g})[h] == 1 && h in GroupsOf(pending, Any(r, h))
  {
    forall h | h in w.running && h != g ensures h in GroupsOf(pending, Any(r, h)) { assert h in GroupsOf(w.pending, Any(r, h)); }
  }

  lemma StillPending(r: Records, roots: set<Node>, closed: set<Node>, w: Work, pending: map<Node, set<Group>>, g: Group)
    requires WellMade(r) && RunsOnce(r, roots, closed, w) && g in w.running && LeftFrom(w.pending, pending, r.recordsOf(g), g)
    requires forall m :: g !in GroupsOf(pending, m)
    ensures forall m :: m in closed ==> GroupsOf(pending, m) == {}
    ensures forall m, h :: h in GroupsOf(pending, m) && h in w.started ==> h in w.running && h != g
    ensures forall h :: h in w.registered ==> h in w.started || h in GroupsOf(pending, Any(r, h))
  {
    forall m, h | h in GroupsOf(pending, m) ensures h in GroupsOf(w.pending, m) && h != g {}
    forall m | m in closed ensures GroupsOf(pending, m) == {} { assert GroupsOf(w.pending, m) == {}; }
  }

  lemma CompletedRunsOnce(r: Records, roots: set<Node>, closed: set<Node>, w: Work, pending: map<Node, set<Group>>, successful: map<Node, set<Group>>, g: Group)
    requires WellMade(r) && RunsOnce(r, roots, closed, w) && g in w.running
    requires LeftFrom(w.pending, pending, r.recordsOf(g), g) && forall m :: g !in GroupsOf(pending, m)
    ensures RunsOnce(r, roots, closed, Completed(w, pending, successful, g)) && g !in w.running - multiset{g}
  {
    StillRunning(r, roots, closed, w, pending, g);
    StillPending(r, roots, closed, w, pending, g);
  }

  lemma CompletedDeliversOnce(r: Records, roots: set<Node>, w: Work, pending: map<Node, set<Group>>, successful: map<Node, set<Group>>, g: Group)
    requires WellMade(r) && DeliversOnce(r, roots, w)
    requires g in w.running && g !in w.running - multiset{g} && g in w.started && CompletesRoot(r, roots, g)
    requires JoinedTo(w.successful, successful, r.recordsOf(g), g)
    ensures DeliversOnce(r, roots, Completed(w, pending, successful, g))
  {
    assert Any(r, g) in r.recordsOf(g);
    forall m, h | h in GroupsOf(successful, m) && h != g ensures h in GroupsOf(w.successful, m) {}
    forall h | h in w.running && h != g ensures h in w.running - multiset{g} {}
  }

  lemma CompletedClean(r: Records, roots: set<Node>, closed: set<Node>, w: Work, pending: map<Node, set<Group>>, successful: map<Node, set<Group>>, g: Group)
    requires WellMade(r) && Clean(r, roots, closed, w) && g in w.running && Shared(r, w.pending)
    requires LeftFrom(w.pending, pending, r.recordsOf(g), g) && JoinedTo(w.successful, successful, r.recordsOf(g), g)
    ensures Clean(r, roots, closed, Completed(w, pending, successful, g))
  {
    LeftShared(r, w.pending, pending, g);
    if !w.failed {
      CompletedRunsOnce(r, roots, closed, w, pending, successful, g);
      CompletedDeliversOnce(r, roots, w, pending, successful, g);
    }
  }

  // ----- delivery -----

  /** The results of `results` have been handed over for good. */
  ghost predicate HandedOver(successful: map<Node, set<Group>>, successful': map<Node, set<Group>>, results: set<Group>)
  {
    forall m, g {:trigger g in GroupsOf(successful, m)} {:trigger g in GroupsOf(successful', m)} ::
      g in GroupsOf(successful', m) <==> g in GroupsOf(successful, m) && g !in results
  }

  /** Once fragment `f` is done: what it completed is delivered. */
  function Delivered(w: Work, f: Node, successful: map<Node, set<Group>>): Work
  {
    w.(successful := successful, delivered := w.delivered + multiset(GroupsOf(w.successful, f)))
  }

  lemma OtherRoot(r: Records, roots: set<Node>, f: Node, g: Group)
    requires CompletesRoot(r, roots, g) && f !in r.recordsOf(g)
    ensures CompletesRoot(r, roots - {f}, g)
  {
    var m :| m in r.recordsOf(g) && m in roots;
    assert m in roots - {f};
  }

  lemma DeliveredRunsOnce(r: Records, roots: set<Node>, closed: set<Node>, w: Work, f: Node)
    requires WellMade(r) && RunsOnce(r, roots, closed, w) && Shared(r, w.pending) && GroupsOf(w.pending, f) == {}
    ensures RunsOnce(r, roots - {f}, closed + {f}, w)
  {
    forall g | g in w.running
      ensures CompletesRoot(r, roots - {f}, g)
    {
      assert f in r.recordsOf(g) ==> g in GroupsOf(w.pending, f);
      OtherRoot(r, roots, f, g);
    }
  }

  lemma DeliveredDeliversOnce(r: Records, roots: set<Node>, w: Work, f: Node, successful: map<Node, set<Group>>, w': Work)
    requires WellMade(r) && DeliversOnce(r, roots, w) && Shared(r, w.successful) && HandedOver(w.successful, successful, GroupsOf(w.successful, f))
    requires w' == Delivered(w, f, successful)
    ensures DeliversOnce(r, roots - {f}, w')
  {
    var results := GroupsOf(w.successful, f);
    forall m, g | g in GroupsOf(successful, m)
      ensures g in w.started && g !in w.running && g !in w'.delivered && CompletesRoot(r, roots - {f}, g)
    {
      assert g in GroupsOf(w.successful, m) && g !in results;
      OtherRoot(r, roots, f, g);
    }
    forall g | g in w.started ensures g in w.running || g in GroupsOf(successful, Any(r, g)) || g in w'.delivered {}
    forall g | g in w'.delivered ensures w'.delivered[g] == 1 && g in w.started && g !in w.running {
      if g in results { assert g in GroupsOf(w.successful, f); }
    }
  }

  lemma DeliveredClean(r: Records, roots: set<Node>, closed: set<Node>, w: Work, f: Node, successful: map<Node, set<Group>>)
    requires WellMade(r) && Clean(r, roots, closed, w) && Shared(r, w.pending) && Shared(r, w.successful) && GroupsOf(w.pending, f) == {}
    requires HandedOver(w.successful, successful, GroupsOf(w.successful, f))
    ensures Clean(r, roots - {f}, closed + {f}, Delivered(w, f, successful))
  {
    if !w.failed {
      DeliveredRunsOnce(r, roots, closed, w, f);
      DeliveredDeliversOnce(r, roots, w, f, successful, Delivered(w, f, successful));
    }
  }

  lemma DeliveredFits(r: Records, roots: set<Node>, seen: set<Node>, w: Work, except: set<Node>, f: Node, successful: map<Node, set<Group>>)
    requires WorkFits(r, roots, seen, w, except) && HandedOver(w.successful, successful, GroupsOf(w.successful, f))
    ensures WorkFits(r, roots - {f}, seen, Delivered(w, f, successful), except)
  {
    forall m, g | g in GroupsOf(successful, m) ensures m in r.recordsOf(g) && g in w.registered { assert g in GroupsOf(w.successful, m); }
    forall m, m', g | g in GroupsOf(successful, m) && m' in r.recordsOf(g) ensures g in GroupsOf(successful, m') {
      assert g in GroupsOf(w.successful, m) && g in GroupsOf(w.successful, m');
    }
  }

  lemma FewerRootsFit(r: Records, roots: set<Node>, seen: set<Node>, w: Work, except: set<Node>, roots': set<Node>, w': Work)
    requires WorkFits(r, roots, seen, w, except) && roots' <= roots && w' == w.(failed := w'.failed)
    ensures WorkFits(r, roots', seen, w', except)
  {
  }

  /** A stream that ends leaves the groups alone. */
  lemma StreamLeavesClean(r: Records, roots: set<Node>, closed: set<Node>, w: Work, n: Node)
    requires WellMade(r) && Clean(r, roots, closed, w) && n.Stream?
    ensures Clean(r, roots - {n}, closed, w)
  {
    forall g | CompletesRoot(r, roots, g) ensures CompletesRoot(r, roots - {n}, g) { OtherRoot(r, roots, n, g); }
  }

  /** A failed group's result has been handled; none of its fragments is a root any more. */
  lemma DiscardedFits(r: Records, roots: set<Node>, seen: set<Node>, w: Work, g: Group)
    requires WorkFits(r, roots, seen, w, {}) && !CompletesRoot(r, roots, g)
    ensures WorkFits(r, roots, seen, w.(running := w.running - multiset{g}, failed := true), {})
  {
    forall m, h | m in roots && h in GroupsOf(w.pending, m) ensures h in w.running - multiset{g} {
      assert m in r.recordsOf(h);
      assert h != g;
    }
  }
}
