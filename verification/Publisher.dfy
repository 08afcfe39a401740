/** The publisher of an incremental response: what it announces, delivers and completes, over every run. */
module Publisher {
  import opened Wrappers
  import opened Sequences
  import opened RecordTree
  import opened GroupRuns
  import opened Waves
  import opened RecordGraph
  import opened WireLog

  /** What shows of a tree on the wire. */
  function FaceOf(t: Tree, delivered: multiset<Group>): Face
  {
    Face(t.roots, t.closed, t.lost, t.promoted, delivered)
  }

  // ----- announcing the new roots -----

  function IssuedAll(b: Book, newRoots: seq<Node>): Book
    decreases |newRoots|
  {
    if newRoots == [] then b
    else
      var last := |newRoots| - 1;
      Issued(IssuedAll(b, newRoots[..last]), newRoots[last])
  }

  /** One announcement for each new root, under consecutive ids. */
  function Announcements(newRoots: seq<Node>, first: nat): (r: seq<Wire>)
    ensures |r| == |newRoots|
    decreases |newRoots|
  {
    if newRoots == [] then []
    else
      var last := |newRoots| - 1;
      Announcements(newRoots[..last], first) + [Announce(first + last, newRoots[last])]
  }

  function OpeningAll(p: Face, newRoots: seq<Node>): Face
  {
    p.(roots := p.roots + Elements(newRoots), promoted := p.promoted + multiset(newRoots))
  }

  lemma {:induction false} IssuedAllLog(b: Book, newRoots: seq<Node>)
    ensures var b' := IssuedAll(b, newRoots); b'.log == b.log + Announcements(newRoots, b.nextId) && b'.nextId == b.nextId + |newRoots|
    decreases |newRoots|
  {
    if newRoots != [] {
      IssuedAllLog(b, newRoots[..|newRoots| - 1]);
    }
  }

  lemma {:induction false} IssuedAllAnnounced(b: Book, newRoots: seq<Node>, id: nat, m: Node)
    ensures Announced(IssuedAll(b, newRoots).log, id, m) ==> Announced(b.log, id, m) || m in newRoots
    ensures m !in newRoots && m in b.ids ==> m in IssuedAll(b, newRoots).ids && IssuedAll(b, newRoots).ids[m] == b.ids[m]
    decreases |newRoots|
  {
    if newRoots != [] {
      var last := |newRoots| - 1;
      IssuedAllAnnounced(b, newRoots[..last], id, m);
      Appended(IssuedAll(b, newRoots[..last]).log, Announce(IssuedAll(b, newRoots[..last]).nextId, newRoots[last]));
    }
  }

  /** None of the new roots stands around a fragment announced before, or around another new root. */
  ghost predicate Announceable(r: Records, log: seq<Wire>, p: Face, newRoots: seq<Node>)
    requires WellMade(r)
  {
    && Distinct(newRoots)
    && (forall n :: n in newRoots ==> n !in p.closed && (n.Fragment? ==> n !in p.roots) && AroundNone(r, log, n))
    && (forall q, m: Node :: q in newRoots && m in newRoots && m.Fragment? ==> !Encloses(r, q, m))
  }

  lemma {:induction false} AnnounceAllKeeps(r: Records, b: Book, p: Face, newRoots: seq<Node>)
    requires WellMade(r) && Mirrors(r, b, p) && Announceable(r, b.log, p, newRoots)
    ensures Mirrors(r, IssuedAll(b, newRoots), OpeningAll(p, newRoots))
    decreases |newRoots|
  {
    if newRoots == [] {
      assert OpeningAll(p, []) == p by { assert p.roots + Elements([]) == p.roots && p.promoted + multiset([]) == p.promoted; }
    } else {
      var last := |newRoots| - 1;
      var before, n := newRoots[..last], newRoots[last];
      AnnounceableBefore(r, b.log, p, newRoots, before, n);
      AnnounceAllKeeps(r, b, p, before);
      forall id: nat, m: Node | Announced(IssuedAll(b, before).log, id, m) && m.Fragment? ensures !Encloses(r, n, m) {
        IssuedAllAnnounced(b, before, id, m);
      }
      AnnounceKeeps(r, IssuedAll(b, before), OpeningAll(p, before), n);
      OpeningOneMore(p, newRoots, before, n);
    }
  }

  lemma AnnounceableBefore(r: Records, log: seq<Wire>, p: Face, newRoots: seq<Node>, before: seq<Node>, n: Node)
    requires WellMade(r) && Announceable(r, log, p, newRoots) && newRoots == before + [n]
    ensures Announceable(r, log, p, before) && n in newRoots && n !in before
  {
    forall i, j | 0 <= i < j < |before| ensures before[i] != before[j] { assert newRoots[i] != newRoots[j]; }
    forall m | m in before ensures m in newRoots {}
    forall i | 0 <= i < |before| ensures before[i] != n { assert newRoots[i] != newRoots[|before|]; }
  }

  lemma OpeningOneMore(p: Face, newRoots: seq<Node>, before: seq<Node>, n: Node)
    requires newRoots == before + [n]
    ensures OpeningAll(p, newRoots) == Opening(OpeningAll(p, before), n)
  {
    ElementsOfAppend(before, n);
    assert p.roots + Elements(newRoots) == p.roots + Elements(before) + {n};
    assert multiset(newRoots) == multiset(before) + multiset{n};
    assert p.promoted + multiset(newRoots) == p.promoted + multiset(before) + multiset{n};
  }

  /** Whatever stands around a fragment that was announced or passed over is done, and not by a failure. */
  lemma {:induction false} EnclosingIsDone(r: Records, t: Tree, m: Node, q: Node)
    requires WellMade(r) && TreeFits(r, t, {}) && m.Fragment? && m in t.roots + t.closed && Encloses(r, q, m)
    ensures q in t.closed && q !in t.lost
    decreases r.depth(m)
  {
    var p := r.parentOf(m).value;
    if p != q { EnclosingIsDone(r, t, p, q); }
  }

  /** What a wave promoted can be announced: whatever was announced is a root or done after the wave, and what stands
      around it is done. */
  lemma WaveIsAnnounceable(r: Records, b: Book, p: Face, t': Tree, newRoots: seq<Node>)
    requires WellMade(r) && Mirrors(r, b, p) && TreeFits(r, t', {}) && Distinct(newRoots) && Elements(newRoots) <= t'.roots
    requires p.roots + p.closed <= t'.roots + t'.closed && p.closed <= t'.closed
    requires forall n :: n in newRoots && n.Fragment? ==> n !in p.roots && n !in p.closed
    ensures Announceable(r, b.log, p, newRoots)
  {
    assert Agrees(OfFragments, r, b, p);
    forall n | n in newRoots ensures n in t'.roots && n !in t'.closed { assert n in Elements(newRoots); }
    forall n, id: nat, m: Node | n in newRoots && Announced(b.log, id, m) && m.Fragment? ensures !Encloses(r, n, m) {
      assert m in t'.roots + t'.closed;
      if Encloses(r, n, m) { EnclosingIsDone(r, t', m, n); }
    }
    forall q, m: Node | q in newRoots && m in newRoots && m.Fragment? ensures !Encloses(r, q, m) {
      if Encloses(r, q, m) { EnclosingIsDone(r, t', m, q); }
    }
  }

  /** The records of `revealed` have joined the graph at the top level, and `newRoots` are what the wave from there
      promoted: every one of them a new top-level fragment or stream, or inside fragments the wave passed over. */
  ghost predicate Promotes(r: Records, t: Tree, w: Work, t': Tree, w': Work, revealed: seq<Revealed>, newRoots: seq<Node>)
  {
    exists passed, mid, initial ::
      && Opened(t, t', newRoots, passed) && Added(r, t, w, mid, w', revealed, []) && TopLevel(r, initial) && Starts(initial, revealed, true)
      && TreeFits(r, mid, FragmentsOf(initial)) && Wave(mid, t', w'.pending, initial, newRoots, passed)
  }

  // ----- handing over results -----

  function SentAll(b: Book, order: seq<Group>): Book
    decreases |order|
  {
    if order == [] then b
    else
      var last := |order| - 1;
      Sent(SentAll(b, order[..last]), Deliver(order[last]))
  }

  /** One delivery for each result. */
  function Handovers(order: seq<Group>): seq<Wire>
    decreases |order|
  {
    if order == [] then []
    else
      var last := |order| - 1;
      Handovers(order[..last]) + [Deliver(order[last])]
  }

  lemma {:induction false} SentAllLog(b: Book, order: seq<Group>)
    ensures SentAll(b, order) == b.(log := b.log + Handovers(order))
    decreases |order|
  {
    if order == [] {
      assert b.log + [] == b.log;
    } else {
      SentAllLog(b, order[..|order| - 1]);
    }
  }

  lemma {:induction false} SendAllKeeps(r: Records, b: Book, p: Face, order: seq<Group>)
    requires WellMade(r) && Mirrors(r, b, p)
    ensures Mirrors(r, SentAll(b, order), p.(delivered := p.delivered + multiset(order)))
    decreases |order|
  {
    if order == [] {
      assert p.delivered + multiset([]) == p.delivered;
    } else {
      var last := |order| - 1;
      SendAllKeeps(r, b, p, order[..last]);
      SendKeeps(r, SentAll(b, order[..last]), p.(delivered := p.delivered + multiset(order[..last])), Deliver(order[last]));
      assert order == order[..last] + [order[last]];
      assert p.delivered + multiset(order) == p.delivered + multiset(order[..last]) + multiset{order[last]};
    }
  }

  // ----- the steps of the publisher -----

  /** New records at the top level, announced. */
  lemma OpeningKeeps(r: Records, t: Tree, b: Book, delivered: multiset<Group>, t': Tree, newRoots: seq<Node>, passed: set<Node>)
    requires WellMade(r) && Mirrors(r, b, FaceOf(t, delivered)) && TreeFits(r, t', {}) && Opened(t, t', newRoots, passed)
    ensures Mirrors(r, IssuedAll(b, newRoots), FaceOf(t', delivered))
  {
    var p := FaceOf(t, delivered);
    WaveIsAnnounceable(r, b, p, t', newRoots);
    AnnounceAllKeeps(r, b, p, newRoots);
    forall m | m in passed ensures m !in Elements(newRoots) { assert m in t'.closed; }
    PassKeeps(r, IssuedAll(b, newRoots), OpeningAll(p, newRoots), passed, FaceOf(t', delivered));
  }

  /** The payload parts of one completion: pending, incremental, completed. */
  function Published(b: Book, f: Node, newRoots: seq<Node>, order: seq<Group>): Book
    requires f in SentAll(IssuedAll(b, newRoots), order).ids
  {
    Ended(SentAll(IssuedAll(b, newRoots), order), f, false)
  }

  /** What `f` and the wave from its children leave of the roots, told in the publisher's order: announce, deliver, complete. */
  lemma CompletionFace(t: Tree, f: Node, delivered: multiset<Group>, pending: map<Node, set<Group>>, kids: seq<Node>, newRoots: seq<Node>,
                       passed: set<Node>, results: multiset<Group>, t': Tree)
    requires Kinds(t) && f in t.roots && f.Fragment? && Wave(Released(t, f), t', pending, kids, newRoots, passed)
    ensures var p := OpeningAll(FaceOf(t, delivered), newRoots).(delivered := delivered + results);
            var ended := Ending(p, f, false);
            && FaceOf(t', delivered + results) == ended.(closed := ended.closed + passed) && f !in newRoots
            && passed !! ended.roots && passed !! ended.closed && f in p.roots
    ensures Distinct(newRoots) && Elements(newRoots) <= t'.roots && t.roots + t.closed <= t'.roots + t'.closed && t.closed <= t'.closed
    ensures forall n :: n in newRoots && n.Fragment? ==> n !in t.roots && n !in t.closed
  {
    assert f !in newRoots;
    assert t.roots + Elements(newRoots) - {f} == t.roots - {f} + Elements(newRoots);
    forall m | m in passed ensures m in t.waiting && m !in newRoots {}
  }

  lemma CompletionKeeps(r: Records, t: Tree, b: Book, delivered: multiset<Group>, f: Node, pending: map<Node, set<Group>>, kids: seq<Node>, newRoots: seq<Node>,
                        passed: set<Node>, order: seq<Group>, t': Tree)
    requires WellMade(r) && Mirrors(r, b, FaceOf(t, delivered)) && Kinds(t) && TreeFits(r, t', {}) && f in t.roots && f.Fragment?
    requires Wave(Released(t, f), t', pending, kids, newRoots, passed)
    ensures f in SentAll(IssuedAll(b, newRoots), order).ids && f in b.ids
    ensures SentAll(IssuedAll(b, newRoots), order).ids[f] == b.ids[f]
    ensures Mirrors(r, Published(b, f, newRoots, order), FaceOf(t', delivered + multiset(order)))
  {
    var p := FaceOf(t, delivered);
    CompletionFace(t, f, delivered, pending, kids, newRoots, passed, multiset(order), t');
    WaveIsAnnounceable(r, b, p, t', newRoots);
    AnnounceAllKeeps(r, b, p, newRoots);
    var b1, p1 := IssuedAll(b, newRoots), OpeningAll(p, newRoots);
    SendAllKeeps(r, b1, p1, order);
    SentAllLog(b1, order);
    assert Agrees(OfRoots, r, b, p);
    IssuedAllAnnounced(b, newRoots, b.ids[f], f);
    var p2 := p1.(delivered := delivered + multiset(order));
    EndKeeps(r, SentAll(b1, order), p2, f, false);
    PassKeeps(r, Published(b, f, newRoots, order), Ending(p2, f, false), passed, FaceOf(t', delivered + multiset(order)));
  }

  lemma PublishedLog(b: Book, f: Node, newRoots: seq<Node>, order: seq<Group>)
    requires f in SentAll(IssuedAll(b, newRoots), order).ids && f in b.ids && SentAll(IssuedAll(b, newRoots), order).ids[f] == b.ids[f]
    ensures Published(b, f, newRoots, order).log == b.log + Announcements(newRoots, b.nextId) + Handovers(order) + [Complete(b.ids[f], f, false)]
  {
    IssuedAllLog(b, newRoots);
    SentAllLog(IssuedAll(b, newRoots), order);
  }

  // ----- a completed group -----

  /** The fragments `g` completes: open ones that wait for `g` alone, and for none of the groups it reveals. */
  ghost function Finishing(r: Records, roots: set<Node>, pending: map<Node, set<Group>>, g: Group, revealed: seq<Revealed>): set<Node>
  {
    set f | f in r.recordsOf(g) && f in roots && (forall h :: h in GroupsOf(pending, f) ==> h == g) && (forall h :: NewGroup(h) in revealed ==> f !in r.recordsOf(h))
  }

  /** No live fragment holds `n`, so no later completion takes it. */
  ghost predicate Unheld(t: Tree, n: Node)
  {
    forall p :: p in Live(t) ==> n !in Under(t.children, p)
  }

  /** No stream revealed so far still hangs off a live fragment. */
  ghost predicate NoneHeld(t: Tree)
  {
    forall n :: n in t.streams ==> Unheld(t, n)
  }

  /** The group reveals no stream, or finishes at most one of its fragments. */
  ghost predicate KeepsProtocol(r: Records, t: Tree, w: Work, g: Group, revealed: seq<Revealed>)
  {
    (exists n :: NewStream(n) in revealed) ==> |Finishing(r, t.roots, w.pending, g, revealed)| <= 1
  }

  /** How far the loop over the fragments of a completed group has come, as the tree shows it: the `k` fragments so far
      that waited for nothing more are gone, and a stream that hangs off all of them has been promoted once for each. */
  ghost predicate Reached(fin: set<Node>, done: set<Node>, k: nat, pending: map<Node, set<Group>>, rs: seq<Node>, t1: Tree, h1: History, t: Tree, h: History)
  {
    && t.children == t1.children && t.streams == t1.streams && |h.waves| == |h1.waves| + k
    && (forall f: Node :: f.Fragment? && GroupsOf(pending, f) == {} ==> (f in t.roots <==> f in t1.roots && f !in done))
    && (forall f :: f in t1.roots ==> f in t.roots || (f in fin && f in done))
    && (forall f: Node :: f.Fragment? && f in Live(t) ==> f in Live(t1))
    && (forall n: Node :: n.Stream? && Unheld(t1, n) ==> t.promoted[n] == t1.promoted[n])
    && (forall f :: f in fin && f in done ==> f in t.closed && f !in t.lost)
    && (forall n :: HangsOffAll(t1, n, rs) ==> t.promoted[n] == t1.promoted[n] + k)
  }

  /** The streams of `revealed` hang off all of these fragments and were never announced. */
  ghost predicate NewlyHung(t: Tree, t1: Tree, rs: seq<Node>, revealed: seq<Revealed>)
  {
    && t1.roots == t.roots && t1.promoted == t.promoted && (forall n :: NewStream(n) in revealed ==> HangsOffAll(t1, n, rs) && t1.promoted[n] == 0)
    && (forall n :: n in t1.streams <==> n in t.streams || NewStream(n) in revealed)
    && (forall n :: n in t.streams && Unheld(t, n) ==> Unheld(t1, n))
  }

  /** What a fragment new to the tree lists is new too. */
  lemma StaysUnheld(t: Tree, t1: Tree, n: Node)
    requires Kinds(t) && Lists(t) && Grown(t, t1) && Kinds(t1) && n in t.streams && Unheld(t, n)
    ensures Unheld(t1, n)
  {
    forall p | p in Live(t1) ensures n !in Under(t1.children, p) {
      if p !in Live(t) { assert p in t1.waiting && p !in t.closed; }
    }
  }

  /** The results that fragments `fin` of `g` wait to deliver, `g` among them. */
  function Results(successful: map<Node, set<Group>>, fin: set<Node>, g: Group): set<Group>
  {
    ResultsOf(successful, fin) + if fin == {} then {} else {g}
  }

  /** `g` is among what its fragments wait to deliver. */
  ghost predicate Marked(r: Records, w: Work, w1: Work, g: Group)
  {
    JoinedTo(w.successful, w1.successful, r.recordsOf(g), g) && w1.delivered == w.delivered && w1.failed == w.failed
  }

  lemma MarkedResults(r: Records, w: Work, w1: Work, g: Group, fin: set<Node>)
    requires Marked(r, w, w1, g) && forall f :: f in fin ==> f in r.recordsOf(g)
    ensures ResultsOf(w1.successful, fin) == Results(w.successful, fin, g)
  {
    forall h ensures h in ResultsOf(w1.successful, fin) <==> h in Results(w.successful, fin, g) {
      if f :| f in fin && h in GroupsOf(w.successful, f) { assert h in GroupsOf(w1.successful, f); }
      if h == g && fin != {} {
        var f :| f in fin;
        assert g in GroupsOf(w1.successful, f);
      }
    }
  }

  /** What the handling of a completed group comes to: of its open fragments exactly the finishing ones are done, each
      completed without errors under its id; their results, and no others, have been delivered once each; each stream
      the group revealed has been announced once for each of them. */
  ghost predicate Handled(r: Records, g: Group, revealed: seq<Revealed>, t: Tree, w: Work, h: History, b: Book, t': Tree, w': Work, h': History, b': Book)
  {
    var fin := Finishing(r, t.roots, w.pending, g, revealed);
    && w'.delivered == w.delivered + multiset(Results(w.successful, fin, g)) && w'.failed == w.failed
    && b.log <= b'.log && |h'.waves| == |h.waves| + |fin|
    && (forall f :: f in t.roots && f in r.recordsOf(g) ==> (f in t'.roots <==> f !in fin))
    && (forall f :: f in fin ==> f in t'.closed && f !in t'.lost && f in b.ids && Complete(b.ids[f], f, false) in b'.log)
    && (forall n :: NewStream(n) in revealed ==> t'.promoted[n] == |fin|)
    && (forall n :: n in t'.streams <==> n in t.streams || NewStream(n) in revealed)
    && (forall n :: n in t.streams && Unheld(t, n) ==> t'.promoted[n] == t.promoted[n])
  }

  ghost predicate HangsOffAll(t: Tree, n: Node, rs: seq<Node>)
  {
    n in t.streams && n.Stream? && forall p :: p in rs ==> n in Under(t.children, p)
  }

  /** As it shows in the log: what is finished was completed without errors, under the id it had. */
  ghost predicate Written(fin: set<Node>, done: set<Node>, b1: Book, b: Book)
  {
    && b1.log <= b.log
    && (forall f :: f in fin ==> f in b1.ids && f in b.ids && b.ids[f] == b1.ids[f])
    && (forall f :: f in fin && f in done ==> Complete(b1.ids[f], f, false) in b.log)
  }

  /** How many of the first `i` are finished. */
  ghost function Count(fin: set<Node>, rs: seq<Node>, i: nat): nat
    requires i <= |rs|
  {
    |fin * Elements(rs[..i])|
  }

  lemma CountOneMore(fin: set<Node>, rs: seq<Node>, i: nat)
    requires i < |rs|
    ensures Count(fin, rs, i + 1) == Count(fin, rs, i) + if rs[i] in fin && rs[i] !in rs[..i] then 1 else 0
    ensures Elements(rs[..i + 1]) == Elements(rs[..i]) + {rs[i]}
    ensures fin * Elements(rs[..i + 1]) == if rs[i] in fin then fin * Elements(rs[..i]) + {rs[i]} else fin * Elements(rs[..i])
  {
    PrefixGrows(rs, i);
    ElementsOfAppend(rs[..i], rs[i]);
    var before, after := fin * Elements(rs[..i]), fin * Elements(rs[..i + 1]);
    if rs[i] in fin && rs[i] !in rs[..i] { assert after == before + {rs[i]}; } else { assert after == before; }
  }

  lemma CountAll(fin: set<Node>, rs: seq<Node>)
    requires forall f :: f in fin ==> f in rs
    ensures Count(fin, rs, 0) == 0 && Elements(rs[..0]) == {} && fin * Elements(rs[..0]) == {}
    ensures Count(fin, rs, |rs|) == |fin| && Elements(rs[..|rs|]) == Elements(rs) && fin * Elements(rs[..|rs|]) == fin
  {
    assert rs[..0] == [] && rs[..|rs|] == rs;
    assert fin * Elements([]) == {} && fin * Elements(rs) == fin;
  }

  /** The completed and undelivered groups of some fragments. */
  function ResultsOf(successful: map<Node, set<Group>>, fs: set<Node>): (r: set<Group>)
    ensures forall h :: h in r <==> exists f :: f in fs && h in GroupsOf(successful, f)
  {
    set f, h | f in fs && h in GroupsOf(successful, f) :: h
  }

  /** How far the loop has come, as to results: those of the finished fragments, each once, are delivered and gone. */
  ghost predicate Delivering(finished: set<Node>, successful1: map<Node, set<Group>>, delivered1: multiset<Group>, successful: map<Node, set<Group>>, delivered: multiset<Group>)
  {
    && HandedOver(successful1, successful, ResultsOf(successful1, finished))
    && delivered == delivered1 + multiset(ResultsOf(successful1, finished))
  }

  lemma DeliveringNone(successful: map<Node, set<Group>>, delivered: multiset<Group>)
    ensures Delivering({}, successful, delivered, successful, delivered)
  {
    assert ResultsOf(successful, {}) == {};
    assert delivered + multiset({}) == delivered;
  }

  lemma DeliveringOn(finished: set<Node>, successful1: map<Node, set<Group>>, delivered1: multiset<Group>, successful: map<Node, set<Group>>,
                     delivered: multiset<Group>, f: Node, successful': map<Node, set<Group>>)
    requires Delivering(finished, successful1, delivered1, successful, delivered)
    requires HandedOver(successful, successful', GroupsOf(successful, f))
    ensures Delivering(finished + {f}, successful1, delivered1, successful', delivered + multiset(GroupsOf(successful, f)))
  {
    var before, now := ResultsOf(successful1, finished), GroupsOf(successful, f);
    ResultsOfMore(successful1, finished, f);
    StillToDeliver(successful1, successful, before, f);
    assert ResultsOf(successful1, finished + {f}) == before + now;
    HandedOverOn(successful1, successful, successful', before, now);
    assert multiset(before + now) == multiset(before) + multiset(now);
  }

  lemma StillToDeliver(successful1: map<Node, set<Group>>, successful: map<Node, set<Group>>, before: set<Group>, f: Node)
    requires HandedOver(successful1, successful, before)
    ensures before + GroupsOf(successful1, f) == before + GroupsOf(successful, f) && before !! GroupsOf(successful, f)
  {
    forall h ensures h in GroupsOf(successful, f) <==> h in GroupsOf(successful1, f) && h !in before {}
  }

  lemma HandedOverOn(successful1: map<Node, set<Group>>, successful: map<Node, set<Group>>, successful': map<Node, set<Group>>, before: set<Group>, now: set<Group>)
    requires HandedOver(successful1, successful, before) && HandedOver(successful, successful', now)
    ensures HandedOver(successful1, successful', before + now)
  {
    forall m, h ensures h in GroupsOf(successful', m) <==> h in GroupsOf(successful1, m) && h !in before + now {}
  }

  lemma ResultsOfMore(successful: map<Node, set<Group>>, fs: set<Node>, f: Node)
    ensures ResultsOf(successful, fs + {f}) == ResultsOf(successful, fs) + GroupsOf(successful, f)
  {
    forall h ensures h in ResultsOf(successful, fs + {f}) <==> h in ResultsOf(successful, fs) + GroupsOf(successful, f) {
      if h in ResultsOf(successful, fs) {
        var m :| m in fs && h in GroupsOf(successful, m);
        assert m in fs + {f};
      }
      if h in GroupsOf(successful, f) { assert f in fs + {f}; }
    }
  }

  lemma ReachedNone(fin: set<Node>, rs: seq<Node>, pending: map<Node, set<Group>>, t: Tree, h: History)
    ensures Reached(fin, {}, 0, pending, rs, t, h, t, h)
  {
  }

  /** A fragment that still waits, or is gone already: nothing happens. */
  lemma ReachedIdle(fin: set<Node>, done: set<Node>, k: nat, pending: map<Node, set<Group>>, rs: seq<Node>, t1: Tree, h1: History, t: Tree, h: History, f: Node)
    requires Reached(fin, done, k, pending, rs, t1, h1, t, h) && f.Fragment? && (f in fin <==> f in t1.roots && GroupsOf(pending, f) == {})
    requires f !in t.roots || GroupsOf(pending, f) != {}
    ensures Reached(fin, done + {f}, k, pending, rs, t1, h1, t, h) && (f in fin ==> f in done)
  {
  }

  /** A fragment that waits for nothing is completed. */
  lemma ReachedOn(fin: set<Node>, done: set<Node>, k: nat, pending: map<Node, set<Group>>, rs: seq<Node>, t1: Tree, h1: History, t: Tree, h: History,
                  f: Node, newRoots: seq<Node>, passed: set<Node>, t': Tree, h': History)
    requires Reached(fin, done, k, pending, rs, t1, h1, t, h) && f.Fragment? && f in rs && Kinds(t)
    requires (f in fin <==> f in t1.roots && GroupsOf(pending, f) == {}) && f in t.roots && GroupsOf(pending, f) == {}
    requires Wave(Released(t, f), t', pending, Under(t.children, f), newRoots, passed) && h' == CompletedHistory(h, f, passed)
    ensures Reached(fin, done + {f}, k + 1, pending, rs, t1, h1, t', h') && f in fin && f !in done
  {
    RootsAfter(pending, t1.roots, done, f, t, newRoots, passed, t');
    forall n: Node | n.Stream? && Unheld(t1, n) ensures t'.promoted[n] == t.promoted[n] { NotTakenOff(t1, t, f, pending, newRoots, passed, t', n); }
    forall n | HangsOffAll(t1, n, rs) ensures t'.promoted[n] == t.promoted[n] + 1 {
      TakenOff(t, f, pending, newRoots, passed, t', n);
    }
  }

  lemma RootsAfter(pending: map<Node, set<Group>>, roots: set<Node>, done: set<Node>, f: Node, t: Tree, newRoots: seq<Node>, passed: set<Node>, t': Tree)
    requires Wave(Released(t, f), t', pending, Under(t.children, f), newRoots, passed)
    requires forall m: Node :: m.Fragment? && GroupsOf(pending, m) == {} ==> (m in t.roots <==> m in roots && m !in done)
    ensures forall m: Node :: m.Fragment? && GroupsOf(pending, m) == {} ==> (m in t'.roots <==> m in roots && m !in done + {f})
  {
    forall m: Node | m.Fragment? && GroupsOf(pending, m) == {} ensures m in t'.roots <==> m in roots && m !in done + {f} {
      assert m !in newRoots;
    }
  }

  lemma NotTakenOff(t1: Tree, t: Tree, f: Node, pending: map<Node, set<Group>>, newRoots: seq<Node>, passed: set<Node>, t': Tree, n: Node)
    requires Kinds(t) && Unheld(t1, n) && n.Stream? && t.children == t1.children && f in t.roots && f.Fragment?
    requires forall m: Node :: m.Fragment? && m in Live(t) ==> m in Live(t1)
    requires Wave(Released(t, f), t', pending, Under(t.children, f), newRoots, passed)
    ensures t'.promoted[n] == t.promoted[n]
  {
    assert f in Live(t);
    forall p | p in passed ensures n !in Under(t.children, p) { assert p in t.waiting && p in Live(t); }
    assert n !in ChildrenOf(Released(t, f).children, passed);
  }

  lemma TakenOff(t: Tree, f: Node, pending: map<Node, set<Group>>, newRoots: seq<Node>, passed: set<Node>, t': Tree, n: Node)
    requires Kinds(t) && n.Stream? && n in Under(t.children, f) && Wave(Released(t, f), t', pending, Under(t.children, f), newRoots, passed)
    ensures t'.promoted[n] == t.promoted[n] + 1
  {
    CandidateIsTaken(Released(t, f), t', pending, Under(t.children, f), newRoots, passed, n);
    assert n !in passed;
    OneOfDistinct(newRoots, n);
  }

  lemma WrittenIdle(fin: set<Node>, done: set<Node>, b1: Book, b: Book, f: Node)
    requires Written(fin, done, b1, b) && (f in fin ==> f in done)
    ensures Written(fin, done + {f}, b1, b)
  {
  }

  lemma WrittenOn(fin: set<Node>, done: set<Node>, b1: Book, b: Book, f: Node, newRoots: seq<Node>, order: seq<Group>, b': Book)
    requires Written(fin, done, b1, b) && f in fin && forall m :: m in fin ==> m !in newRoots
    requires f in SentAll(IssuedAll(b, newRoots), order).ids && SentAll(IssuedAll(b, newRoots), order).ids[f] == b.ids[f]
    requires b' == Published(b, f, newRoots, order)
    ensures Written(fin, done + {f}, b1, b')
  {
    PublishedLog(b, f, newRoots, order);
    SentAllLog(IssuedAll(b, newRoots), order);
    forall m | m in fin ensures m in b1.ids && m in b'.ids && b'.ids[m] == b1.ids[m] { IssuedAllAnnounced(b, newRoots, 0, m); }
  }

  /** Where the loop over the fragments of a completed group stands, the first `i` having been looked at. */
  ghost predicate Progress(fin: set<Node>, rs: seq<Node>, i: nat, t1: Tree, w1: Work, h1: History, b1: Book, t: Tree, w: Work, h: History, b: Book)
    requires i <= |rs|
  {
    && w.pending == w1.pending && w.failed == w1.failed
    && Reached(fin, Elements(rs[..i]), Count(fin, rs, i), w1.pending, rs, t1, h1, t, h)
    && Delivering(fin * Elements(rs[..i]), w1.successful, w1.delivered, w.successful, w.delivered)
    && Written(fin, Elements(rs[..i]), b1, b)
  }

  ghost predicate AllFragments(rs: seq<Node>)
  {
    forall f: Node :: f in rs ==> f.Fragment?
  }

  /** `fin` are the fragments of the group that are roots and wait for nothing. */
  ghost predicate FinishesThese(fin: set<Node>, rs: seq<Node>, t1: Tree, pending: map<Node, set<Group>>)
  {
    AllFragments(rs) && (forall f :: f in fin ==> f in rs) && forall f :: f in rs ==> (f in fin <==> f in t1.roots && GroupsOf(pending, f) == {})
  }

  /** Which fragments a group finishes, before and after it is marked completed. */
  lemma FinishingIs(r: Records, t: Tree, w: Work, p: map<Node, set<Group>>, q: map<Node, set<Group>>, g: Group, revealed: seq<Revealed>, t1: Tree, w1: Work)
    requires WellMade(r) && LeftFrom(w.pending, p, r.recordsOf(g), g) && Added(r, t, Completed(w, p, q, g), t1, w1, revealed, r.recordsOf(g))
    ensures FinishesThese(Finishing(r, t.roots, w.pending, g, revealed), r.recordsOf(g), t1, w1.pending)
    ensures forall n :: NewStream(n) in revealed && n.Stream? ==> HangsOffAll(t1, n, r.recordsOf(g))
    ensures t1.promoted == t.promoted && t1.roots == t.roots && t1.closed == t.closed && t1.lost == t.lost
    ensures w1.delivered == w.delivered && w1.failed == w.failed
  {
    forall f | f in r.recordsOf(g)
      ensures f in Finishing(r, t.roots, w.pending, g, revealed) <==> f in t1.roots && GroupsOf(w1.pending, f) == {}
    {
      forall h ensures h in GroupsOf(w1.pending, f) <==> (h in GroupsOf(w.pending, f) && h != g) || (NewGroup(h) in revealed && f in r.recordsOf(h)) {}
    }
  }

  lemma ProgressStarts(fin: set<Node>, rs: seq<Node>, t: Tree, w: Work, h: History, b: Book)
    requires FinishesThese(fin, rs, t, w.pending) && forall f :: f in fin ==> f in b.ids
    ensures Progress(fin, rs, 0, t, w, h, b, t, w, h, b)
  {
    CountAll(fin, rs);
    ReachedNone(fin, rs, w.pending, t, h);
    DeliveringNone(w.successful, w.delivered);
  }

  lemma ProgressIdle(fin: set<Node>, rs: seq<Node>, i: nat, t1: Tree, w1: Work, h1: History, b1: Book, t: Tree, w: Work, h: History, b: Book)
    requires i < |rs| && FinishesThese(fin, rs, t1, w1.pending) && Progress(fin, rs, i, t1, w1, h1, b1, t, w, h, b)
    requires rs[i] !in t.roots || GroupsOf(w.pending, rs[i]) != {}
    ensures Progress(fin, rs, i + 1, t1, w1, h1, b1, t, w, h, b)
  {
    var f, done := rs[i], Elements(rs[..i]);
    assert f in rs;
    CountOneMore(fin, rs, i);
    ReachedIdle(fin, done, Count(fin, rs, i), w1.pending, rs, t1, h1, t, h, f);
    WrittenIdle(fin, done, b1, b, f);
    assert fin * Elements(rs[..i + 1]) == fin * done;
  }

  lemma ProgressOn(fin: set<Node>, rs: seq<Node>, i: nat, t1: Tree, w1: Work, h1: History, b1: Book, t: Tree, w: Work, h: History, b: Book,
                   newRoots: seq<Node>, passed: set<Node>, order: seq<Group>, t': Tree, w': Work, h': History, b': Book)
    requires i < |rs| && FinishesThese(fin, rs, t1, w1.pending) && Progress(fin, rs, i, t1, w1, h1, b1, t, w, h, b) && Kinds(t)
    requires rs[i] in t.roots && GroupsOf(w.pending, rs[i]) == {}
    requires CompletesNow(t, w, h, b, rs[i], newRoots, passed, order, t', w', h', b')
    ensures Progress(fin, rs, i + 1, t1, w1, h1, b1, t', w', h', b')
  {
    var f, done := rs[i], Elements(rs[..i]);
    assert f in rs;
    CountOneMore(fin, rs, i);
    ReachedOn(fin, done, Count(fin, rs, i), w1.pending, rs, t1, h1, t, h, f, newRoots, passed, t', h');
    DeliveringOn(fin * done, w1.successful, w1.delivered, w.successful, w.delivered, f, w'.successful);
    forall m | m in fin ensures m !in newRoots { assert m in rs; }
    WrittenOn(fin, done, b1, b, f, newRoots, order, b');
  }

  /** Fragment `f`, which waits for nothing, is completed: what the wave from its children promotes is announced, its
      results are delivered once each, and it is completed under its id. */
  ghost predicate CompletesNow(t: Tree, w: Work, h: History, b: Book, f: Node, newRoots: seq<Node>, passed: set<Node>, order: seq<Group>,
                               t': Tree, w': Work, h': History, b': Book)
  {
    && Wave(Released(t, f), t', w.pending, Under(t.children, f), newRoots, passed) && h' == CompletedHistory(h, f, passed)
    && w'.pending == w.pending && w'.failed == w.failed && multiset(order) == multiset(GroupsOf(w.successful, f))
    && w'.delivered == w.delivered + multiset(GroupsOf(w.successful, f)) && HandedOver(w.successful, w'.successful, GroupsOf(w.successful, f))
    && f in b.ids && f in SentAll(IssuedAll(b, newRoots), order).ids && SentAll(IssuedAll(b, newRoots), order).ids[f] == b.ids[f]
    && b' == Published(b, f, newRoots, order)
  }

  lemma ProgressEnds(r: Records, fin: set<Node>, g: Group, revealed: seq<Revealed>, t: Tree, w: Work, t1: Tree, w1: Work, h: History, b: Book,
                     t': Tree, w': Work, h': History, b': Book)
    requires Progress(fin, r.recordsOf(g), |r.recordsOf(g)|, t1, w1, h, b, t', w', h', b') && FinishesThese(fin, r.recordsOf(g), t1, w1.pending)
    requires fin == Finishing(r, t.roots, w.pending, g, revealed) && NewlyHung(t, t1, r.recordsOf(g), revealed) && Marked(r, w, w1, g)
    requires t'.roots !! t'.closed && forall n :: n in t'.streams ==> n.Stream?
    ensures Handled(r, g, revealed, t, w, h, b, t', w', h', b')
  {
    CountAll(fin, r.recordsOf(g));
    MarkedResults(r, w, w1, g, fin);
    forall f | f in fin ensures f in t'.closed && f !in t'.lost && f in b.ids && Complete(b.ids[f], f, false) in b'.log { assert f in r.recordsOf(g); }
    forall f | f in t.roots && f in r.recordsOf(g) ensures f in t'.roots <==> f !in fin { assert f in t1.roots; }
    forall n | NewStream(n) in revealed ensures t'.promoted[n] == |fin| { assert HangsOffAll(t1, n, r.recordsOf(g)); }
    forall n | n in t.streams && Unheld(t, n) ensures t'.promoted[n] == t.promoted[n] { assert Unheld(t1, n); }
  }

  // ----- streams taken twice -----

  /** No two waves took fragments that the same stream hangs off. */
  ghost predicate NoStreamTakenTwice(t: Tree, waves: seq<set<Node>>)
  {
    forall n, i, j :: n in t.streams && 0 <= i < j < |waves| ==> n !in ChildrenOf(t.children, waves[i]) || n !in ChildrenOf(t.children, waves[j])
  }

  lemma PromotedOnceIff(t: Tree, h: History)
    requires Recorded(t, h) && Counts(t)
    ensures (forall n :: t.promoted[n] <= 1) <==> NoStreamTakenTwice(t, h.waves)
  {
    forall n ensures t.promoted[n] <= 1 || (n in t.streams && n !in h.top && t.promoted[n] == Takings(t.children, h.waves, n)) {
      assert n in t.promoted <==> t.promoted[n] >= 1;
    }
    forall n | n in t.streams
      ensures t.promoted[n] <= 1 <==> forall i, j :: 0 <= i < j < |h.waves| ==> n !in ChildrenOf(t.children, h.waves[i]) || n !in ChildrenOf(t.children, h.waves[j])
    {
      TakenOnceIff(t.children, h.waves, n);
    }
  }

  /** Waves do not overlap, so a stream off one fragment is taken once. */
  lemma UnsharedIsTakenOnce(t: Tree, h: History)
    requires Recorded(t, h) && forall n, p, q :: n in t.streams && n in Under(t.children, p) && n in Under(t.children, q) ==> p == q
    ensures NoStreamTakenTwice(t, h.waves)
  {
    forall n, i, j | n in t.streams && 0 <= i < j < |h.waves| && n in ChildrenOf(t.children, h.waves[i])
      ensures n !in ChildrenOf(t.children, h.waves[j])
    {
      var p :| p in h.waves[i] && n in Under(t.children, p);
      forall q | q in h.waves[j] ensures n !in Under(t.children, q) { assert h.waves[i] !! h.waves[j]; }
    }
  }

  // ----- a failed group -----

  ghost predicate OnlyFailures(more: seq<Wire>, rs: seq<Node>)
  {
    forall i :: 0 <= i < |more| ==> more[i].Complete? && more[i].withErrors && more[i].node in rs
  }

  lemma MoreFailures(first: seq<Wire>, before: seq<Wire>, after: seq<Wire>, rs: seq<Node>, f: Node)
    requires first <= before && OnlyFailures(before[|first|..], rs) && f in rs
    requires after == before || exists id :: after == before + [Complete(id, f, true)]
    ensures first <= after && OnlyFailures(after[|first|..], rs)
  {
    if after != before {
      var id :| after == before + [Complete(id, f, true)];
      assert after[|first|..] == before[|first|..] + [Complete(id, f, true)];
    }
  }

  ghost predicate NoneOf(rs: seq<Node>, roots: set<Node>)
  {
    forall f :: f in rs ==> f !in roots
  }

  lemma OneFewer(rs: seq<Node>, i: nat, roots: set<Node>, roots': set<Node>)
    requires i < |rs| && NoneOf(rs[..i], roots) && roots' <= roots && rs[i] !in roots'
    ensures NoneOf(rs[..i + 1], roots')
  {
    PrefixGrows(rs, i);
  }

  /** Nothing waits when no root is left: a waiting fragment hangs off a live one, and so on up. */
  lemma {:induction false} NothingWaits(r: Records, t: Tree, n: Node)
    requires WellMade(r) && Hangs(r, t, {}) && Kinds(t) && t.lost == {} && t.roots == {} && n in t.waiting
    ensures false
    decreases r.depth(n)
  {
    var p := r.parentOf(n).value;
    assert p in Live(t);
    NothingWaits(r, t, p);
  }

  class Publisher {
    const graph: IncGraph
    var nextId: nat
    var ids: map<Node, nat>
    var log: seq<Wire>

    function B(): Book
      reads this
    {
      Book(nextId, ids, log)
    }

    /** The graph is sound and the log mirrors it; within an operation, some fragments may be roots that wait for nothing. */
    ghost predicate Handling(except: set<Node>)
      reads this, graph
    {
      graph.Steady(except) && Mirrors(graph.records, B(), FaceOf(graph.T(), graph.delivered))
    }

    ghost predicate Valid()
      reads this, graph
    {
      Handling({})
    }

    constructor (graph: IncGraph)
      requires graph.Steady({}) && FaceOf(graph.T(), graph.delivered) == Face({}, {}, {}, multiset{}, multiset{})
      ensures this.graph == graph && Valid() && B() == Book(0, map[], [])
    {
      this.graph, nextId, ids, log := graph, 0, map[], [];
      new;
      NothingSaid(graph.records, B(), FaceOf(graph.T(), graph.delivered));
    }

    predicate HasNext()
      reads this, graph
    {
      graph.roots != {}
    }

    method Issue(n: Node)
      modifies this
      ensures B() == Issued(old(B()), n)
    {
      ids, log := ids[n := nextId], log + [Announce(nextId, n)];
      nextId := nextId + 1;
    }

    /** `to_pending`: a fresh id for each new root. */
    method ToPending(newRoots: seq<Node>)
      modifies this
      ensures B() == IssuedAll(old(B()), newRoots)
      ensures log == old(log) + Announcements(newRoots, old(nextId)) && nextId == old(nextId) + |newRoots|
    {
      ghost var b := B();
      for i := 0 to |newRoots|
        invariant B() == IssuedAll(b, newRoots[..i])
      {
        assert newRoots[..i + 1][..i] == newRoots[..i];
        Issue(newRoots[i]);
      }
      assert newRoots[..|newRoots|] == newRoots;
      IssuedAllLog(b, newRoots);
    }

    method Send(w: Wire)
      modifies `log
      ensures B() == Sent(old(B()), w)
    {
      log := log + [w];
    }

    /** `CompletedResult`: the id of a root is closed. */
    method Finish(n: Node, withErrors: bool)
      requires n in ids
      modifies `log
      ensures B() == Ended(old(B()), n, withErrors)
    {
      log := log + [Complete(ids[n], n, withErrors)];
    }

    /** The data of each result handed over, each once. */
    method DeliverAll(results: set<Group>) returns (ghost order: seq<Group>)
      modifies `log
      ensures B() == SentAll(old(B()), order) && multiset(order) == multiset(results)
    {
      ghost var b := B();
      order := [];
      var todo := results;
      while todo != {}
        invariant B() == SentAll(b, order) && multiset(order) + multiset(todo) == multiset(results)
        decreases todo
      {
        var g :| g in todo;
        assert (order + [g])[..|order|] == order;
        assert multiset(todo) == multiset(todo - {g}) + multiset{g};
        Send(Deliver(g));
        order, todo := order + [g], todo - {g};
      }
    }

    /** `build_response`: what the initial result revealed joins the graph, and exactly what the wave from its top level
        promotes is announced. */
    method BuildResponse(revealed: seq<Revealed>) returns (ghost newRoots: seq<Node>)
      requires Valid() && Revealable(graph.records, graph.T(), graph.registered, revealed, [], true)
      modifies this, graph
      ensures Valid() && log == old(log) + Announcements(newRoots, old(nextId))
      ensures Promotes(graph.records, old(graph.T()), old(graph.W()), graph.T(), graph.W(), revealed, newRoots)
    {
      ghost var t, w, b := graph.T(), graph.W(), B();
      ghost var passed, mid, initial;
      var promoted;
      promoted, passed, mid, initial := graph.GetNewRootNodes(revealed);
      newRoots := promoted;
      assert B() == b;
      OpeningIsMirrored(t, b, w.delivered, newRoots, passed);
      ToPending(promoted);
    }

    lemma OpeningIsMirrored(t: Tree, b: Book, delivered: multiset<Group>, newRoots: seq<Node>, passed: set<Node>)
      requires graph.Steady({}) && Mirrors(graph.records, b, FaceOf(t, delivered)) && Opened(t, graph.T(), newRoots, passed)
      ensures Mirrors(graph.records, IssuedAll(b, newRoots), FaceOf(graph.T(), delivered))
    {
      Opens(graph.records, graph.T(), graph.W(), {}, {});
      OpeningKeeps(graph.records, t, b, delivered, graph.T(), newRoots, passed);
    }

    // ----- a completed group -----

    /** One fragment of a completed group: when it waits for nothing more, what the wave from its children promotes is
        announced, its results are delivered, and it is completed -- a nested record is announced in no other step. */
    method CompleteFragment(f: Node, ghost except: set<Node>) returns (ghost newRoots: seq<Node>, ghost passed: set<Node>, ghost order: seq<Group>)
      requires Handling(except) && f.Fragment?
      modifies this, graph
      ensures Handling(except - {f})
      ensures f !in old(graph.roots) || GroupsOf(old(graph.pending), f) != {} ==>
                graph.T() == old(graph.T()) && graph.W() == old(graph.W()) && graph.history == old(graph.history) && B() == old(B())
      ensures f in old(graph.roots) && GroupsOf(old(graph.pending), f) == {} ==>
                CompletesNow(old(graph.T()), old(graph.W()), old(graph.history), old(B()), f, newRoots, passed, order,
                             graph.T(), graph.W(), graph.history, B())
    {
      ghost var t, w, b := graph.T(), graph.W(), B();
      newRoots, order := [], [];
      var completion;
      completion, passed := graph.CompleteDeferredFragment(f, except);
      assert B() == b;
      if completion.None? {
        return;
      }
      newRoots := completion.value.0;
      order := Publish(t, w, f, except, completion.value.0, completion.value.1, passed);
    }

    /** The payload parts of one completion: pending, incremental, completed. */
    method Publish(ghost t: Tree, ghost w: Work, f: Node, ghost except: set<Node>, newRoots: seq<Node>, results: set<Group>, ghost passed: set<Node>)
      returns (ghost order: seq<Group>)
      requires graph.Steady(except - {f}) && Invariant(graph.records, t, w, {}, except) && f in t.roots && f.Fragment?
      requires Mirrors(graph.records, B(), FaceOf(t, w.delivered)) && graph.delivered == w.delivered + multiset(results)
      requires Wave(Released(t, f), graph.T(), graph.pending, Under(t.children, f), newRoots, passed)
      modifies this
      ensures Handling(except - {f}) && multiset(order) == multiset(results)
      ensures f in SentAll(IssuedAll(old(B()), newRoots), order).ids && B() == Published(old(B()), f, newRoots, order)
      ensures f in old(ids) && SentAll(IssuedAll(old(B()), newRoots), order).ids[f] == old(ids)[f]
    {
      ghost var b := B();
      ToPending(newRoots);
      order := DeliverAll(results);
      CompletionIsMirrored(t, w, b, f, except, newRoots, passed, order);
      Finish(f, false);
    }

    lemma CompletionIsMirrored(t: Tree, w: Work, b: Book, f: Node, except: set<Node>, newRoots: seq<Node>, passed: set<Node>, order: seq<Group>)
      requires graph.Steady(except - {f}) && Invariant(graph.records, t, w, {}, except) && f in t.roots && f.Fragment?
      requires Mirrors(graph.records, b, FaceOf(t, w.delivered)) && graph.delivered == w.delivered + multiset(order)
      requires Wave(Released(t, f), graph.T(), graph.pending, Under(t.children, f), newRoots, passed)
      ensures f in SentAll(IssuedAll(b, newRoots), order).ids && f in b.ids && SentAll(IssuedAll(b, newRoots), order).ids[f] == b.ids[f]
      ensures Mirrors(graph.records, Published(b, f, newRoots, order), FaceOf(graph.T(), graph.delivered))
    {
      Opens(graph.records, t, w, {}, except);
      Opens(graph.records, graph.T(), graph.W(), {}, except - {f});
      CompletionKeeps(graph.records, t, b, w.delivered, f, graph.pending, Under(t.children, f), newRoots, passed, order, graph.T());
    }

    /** A completed group: what it revealed joins the graph; exactly those of its fragments that wait for nothing more are
        completed; and a stream it revealed is announced once for each of these.  So the protocol is kept exactly when
        there is no such stream or at most one such fragment, unless streams revealed earlier still wait. */
    method HandleCompletedGroup(g: Group, revealed: seq<Revealed>)
      requires Valid() && g in graph.running && Revealable(graph.records, graph.T(), graph.registered, revealed, graph.records.recordsOf(g), false)
      modifies this, graph
      ensures Valid()
      ensures Handled(graph.records, g, revealed, old(graph.T()), old(graph.W()), old(graph.history), old(B()), graph.T(), graph.W(), graph.history, B())
      ensures NoneHeld(old(graph.T())) ==>
                (Protocol(log) <==> Protocol(old(log)) && KeepsProtocol(graph.records, old(graph.T()), old(graph.W()), g, revealed))
    {
      ghost var t, w, h, b := graph.T(), graph.W(), graph.history, B();
      ghost var fin := Finishing(graph.records, t.roots, w.pending, g, revealed);
      var rs := graph.records.recordsOf(g);
      Opens(graph.records, t, w, {}, {});
      ProtocolCounts();
      graph.AddCompletedGroup(g, revealed);
      assert B() == b;
      ghost var t1, w1 := graph.T(), graph.W();
      HandlingStarts(t, w, h, g, revealed, fin);
      FinishFragments(fin, rs, t1, w1, h, b);
      HandlingEnds(fin, w1, t, w, g, revealed, t1, h, b);
      if NoneHeld(t) { GroupKeepsProtocolIff(g, revealed, t, w, h, b); }
    }

    ghost predicate Stage(fin: set<Node>, rs: seq<Node>, i: nat, t1: Tree, w1: Work, h1: History, b1: Book)
      requires i <= |rs|
      reads this, graph
    {
      Handling(Elements(rs[i..])) && FinishesThese(fin, rs, t1, w1.pending) && Progress(fin, rs, i, t1, w1, h1, b1, graph.T(), graph.W(), graph.history, B())
    }

    lemma HandlingStarts(t: Tree, w: Work, h: History, g: Group, revealed: seq<Revealed>, fin: set<Node>)
      requires graph.Steady(Elements(graph.records.recordsOf(g))) && Mirrors(graph.records, B(), FaceOf(t, w.delivered)) && graph.history == h
      requires fin == Finishing(graph.records, t.roots, w.pending, g, revealed)
      requires exists p, q :: LeftFrom(w.pending, p, graph.records.recordsOf(g), g) && JoinedTo(w.successful, q, graph.records.recordsOf(g), g)
                              && Added(graph.records, t, Completed(w, p, q, g), graph.T(), graph.W(), revealed, graph.records.recordsOf(g))
      requires Kinds(t) && Counts(t) && Lists(t) && forall n :: NewStream(n) in revealed ==> n.Stream? && n !in t.streams
      ensures Stage(fin, graph.records.recordsOf(g), 0, graph.T(), graph.W(), h, B())
      ensures NewlyHung(t, graph.T(), graph.records.recordsOf(g), revealed) && Marked(graph.records, w, graph.W(), g)
    {
      var rs := graph.records.recordsOf(g);
      var p, q :| LeftFrom(w.pending, p, rs, g) && JoinedTo(w.successful, q, rs, g) && Added(graph.records, t, Completed(w, p, q, g), graph.T(), graph.W(), revealed, rs);
      FinishingIs(graph.records, t, w, p, q, g, revealed, graph.T(), graph.W());
      Opens(graph.records, graph.T(), graph.W(), {}, Elements(rs));
      forall n | n in t.streams && Unheld(t, n) ensures Unheld(graph.T(), n) { StaysUnheld(t, graph.T(), n); }
      assert FaceOf(graph.T(), graph.delivered) == FaceOf(t, w.delivered);
      assert Agrees(OfRoots, graph.records, B(), FaceOf(t, w.delivered));
      assert rs[0..] == rs;
      ProgressStarts(fin, rs, graph.T(), graph.W(), h, B());
    }

    /** Each of the group's fragments in turn. */
    method FinishFragments(ghost fin: set<Node>, rs: seq<Node>, ghost t1: Tree, ghost w1: Work, ghost h1: History, ghost b1: Book)
      requires Stage(fin, rs, 0, t1, w1, h1, b1)
      modifies this, graph
      ensures Stage(fin, rs, |rs|, t1, w1, h1, b1)
    {
      for i := 0 to |rs|
        invariant Stage(fin, rs, i, t1, w1, h1, b1)
      {
        NextFragment(fin, rs, i, t1, w1, h1, b1);
      }
    }

    method NextFragment(ghost fin: set<Node>, rs: seq<Node>, i: nat, ghost t1: Tree, ghost w1: Work, ghost h1: History, ghost b1: Book)
      requires i < |rs| && Stage(fin, rs, i, t1, w1, h1, b1)
      modifies this, graph
      ensures Stage(fin, rs, i + 1, t1, w1, h1, b1)
    {
      ghost var t, h, b, w := graph.T(), graph.history, B(), graph.W();
      assert rs[i] in rs;
      Opens(graph.records, t, w, {}, Elements(rs[i..]));
      ghost var newRoots, passed, order := CompleteFragment(rs[i], Elements(rs[i..]));
      if rs[i] !in t.roots || GroupsOf(w.pending, rs[i]) != {} {
        ProgressIdle(fin, rs, i, t1, w1, h1, b1, t, w, h, b);
      } else {
        ProgressOn(fin, rs, i, t1, w1, h1, b1, t, w, h, b, newRoots, passed, order, graph.T(), graph.W(), graph.history, B());
      }
      MoreExcepted(Elements(rs[i..]) - {rs[i]}, rs, i);
    }

    lemma MoreExcepted(except: set<Node>, rs: seq<Node>, i: nat)
      requires i < |rs| && Handling(except) && except == Elements(rs[i..]) - {rs[i]}
      ensures Handling(Elements(rs[i + 1..]))
    {
      assert rs[i..] == [rs[i]] + rs[i + 1..];
      assert except <= Elements(rs[i + 1..]);
      Opens(graph.records, graph.T(), graph.W(), {}, except);
      Closes(graph.records, graph.T(), graph.W(), {}, Elements(rs[i + 1..]));
    }

    lemma HandlingEnds(fin: set<Node>, w1: Work, t: Tree, w: Work, g: Group, revealed: seq<Revealed>, t1: Tree, h: History, b: Book)
      requires Stage(fin, graph.records.recordsOf(g), |graph.records.recordsOf(g)|, t1, w1, h, b)
      requires fin == Finishing(graph.records, t.roots, w.pending, g, revealed) && NewlyHung(t, t1, graph.records.recordsOf(g), revealed)
      requires Marked(graph.records, w, w1, g)
      ensures Valid() && Handled(graph.records, g, revealed, t, w, h, b, graph.T(), graph.W(), graph.history, B())
    {
      var rs := graph.records.recordsOf(g);
      assert rs[|rs|..] == [] && Elements(rs[|rs|..]) == {};
      Opens(graph.records, graph.T(), graph.W(), {}, {});
      ProgressEnds(graph.records, fin, g, revealed, t, w, t1, w1, h, b, graph.T(), graph.W(), graph.history, B());
    }

    // ----- a failed group -----

    /** A failed group: each of its fragments that is a root is completed with the errors, and delivers nothing. */
    method HandleFailedGroup(g: Group)
      requires Valid() && g in graph.running
      modifies this, graph
      ensures Valid() && old(log) <= log && graph.delivered == old(graph.delivered) && graph.failed
      ensures forall f :: f in graph.records.recordsOf(g) ==> f !in graph.roots
      ensures OnlyFailures(log[|old(log)|..], graph.records.recordsOf(g))
    {
      var rs := graph.records.recordsOf(g);
      ghost var delivered := graph.delivered;
      for i := 0 to |rs|
        invariant Valid() && old(log) <= log && graph.delivered == delivered
        invariant NoneOf(rs[..i], graph.roots)
        invariant OnlyFailures(log[|old(log)|..], rs)
      {
        ghost var before, roots := log, graph.roots;
        FailFragment(rs[i]);
        MoreFailures(old(log), before, log, rs, rs[i]);
        OneFewer(rs, i, roots, graph.roots);
      }
      assert rs[..|rs|] == rs;
      graph.Discard(g);
    }

    method FailFragment(f: Node)
      requires Valid() && f.Fragment?
      modifies this, graph
      ensures Valid() && f !in graph.roots && graph.roots <= old(graph.roots) && graph.delivered == old(graph.delivered)
      ensures f in old(graph.roots) ==> f in old(ids)
      ensures B() == if f in old(graph.roots) then Ended(old(B()), f, true) else old(B())
    {
      ghost var t, w, b := graph.T(), graph.W(), B();
      FailureIsMirrored(f);
      var was := graph.RemoveDeferredFragment(f);
      assert B() == b && graph.delivered == w.delivered;
      if was {
        Finish(f, true);
      }
    }

    lemma FailureIsMirrored(f: Node)
      requires Valid() && f.Fragment?
      ensures f in graph.roots ==> f in ids && Mirrors(graph.records, Ended(B(), f, true), FaceOf(Dropped(graph.T(), f), graph.delivered))
    {
      Opens(graph.records, graph.T(), graph.W(), {}, {});
      if f in graph.roots {
        assert Agrees(OfRoots, graph.records, B(), FaceOf(graph.T(), graph.delivered));
        EndKeeps(graph.records, B(), FaceOf(graph.T(), graph.delivered), f, true);
      }
    }

    // ----- a stream's batch -----

    /** A stream's batch: its items and what they revealed, or its end. */
    method HandleStreamBatch(n: Node, done: bool, withErrors: bool, revealed: seq<Revealed>) returns (ghost newRoots: seq<Node>)
      requires Valid() && n in graph.roots && n.Stream? && Revealable(graph.records, graph.T(), graph.registered, revealed, [], true)
      modifies this, graph
      ensures Valid() && n in old(ids)
      ensures done ==> graph.T() == Finished(old(graph.T()), n) && log == old(log) + [Complete(old(ids)[n], n, withErrors)]
      ensures !done ==> Promotes(graph.records, old(graph.T()), old(graph.W()), graph.T(), graph.W(), revealed, newRoots)
      ensures !done ==> log == old(log) + [Items(old(ids)[n])] + Announcements(newRoots, old(nextId))
    {
      newRoots := [];
      StreamIsMirrored(n, withErrors);
      if done {
        ghost var delivered := graph.delivered;
        Finish(n, withErrors);
        ghost var b := B();
        graph.RemoveStream(n);
        assert B() == b && graph.delivered == delivered;
      } else {
        Send(Items(ids[n]));
        newRoots := BuildResponse(revealed);
      }
    }

    lemma StreamIsMirrored(n: Node, withErrors: bool)
      requires Valid() && n in graph.roots && n.Stream?
      ensures n in ids && Mirrors(graph.records, Ended(B(), n, withErrors), FaceOf(Finished(graph.T(), n), graph.delivered))
      ensures Mirrors(graph.records, Sent(B(), Items(ids[n])), FaceOf(graph.T(), graph.delivered))
    {
      assert Agrees(OfRoots, graph.records, B(), FaceOf(graph.T(), graph.delivered));
      EndKeeps(graph.records, B(), FaceOf(graph.T(), graph.delivered), n, withErrors);
      SendKeeps(graph.records, B(), FaceOf(graph.T(), graph.delivered), Items(ids[n]));
    }

    // ----- what holds in every reachable state -----

    /** The protocol is kept exactly when no record was promoted twice. */
    lemma ProtocolCounts()
      requires Valid()
      ensures Protocol(log) <==> forall n :: graph.promoted[n] <= 1
    {
      assert Agrees(OfOrder, graph.records, B(), FaceOf(graph.T(), graph.delivered));
      assert Agrees(OfCounts, graph.records, B(), FaceOf(graph.T(), graph.delivered));
      ToldOnceIff(log);
      assert forall n :: Announcees(log)[n] == graph.promoted[n];
    }

    /** The protocol is kept exactly when no two completions of the run took fragments that share a stream. */
    lemma ProtocolIff()
      requires Valid()
      ensures Protocol(log) <==> NoStreamTakenTwice(graph.T(), graph.history.waves)
    {
      ProtocolCounts();
      Opens(graph.records, graph.T(), graph.W(), {}, {});
      PromotedOnceIff(graph.T(), graph.history);
    }

    lemma GroupKeepsProtocolIff(g: Group, revealed: seq<Revealed>, t: Tree, w: Work, h: History, b: Book)
      requires Valid() && Handled(graph.records, g, revealed, t, w, h, b, graph.T(), graph.W(), graph.history, B())
      requires Counts(t) && (forall n :: NewStream(n) in revealed ==> n.Stream?) && NoneHeld(t)
      requires Protocol(b.log) <==> forall n :: t.promoted[n] <= 1
      ensures Protocol(log) <==> Protocol(b.log) && KeepsProtocol(graph.records, t, w, g, revealed)
    {
      ProtocolCounts();
      Opens(graph.records, graph.T(), graph.W(), {}, {});
      forall n ensures graph.promoted[n] <= 1 || n in graph.streams { assert n in graph.promoted <==> graph.promoted[n] >= 1; }
      forall n ensures t.promoted[n] <= 1 || n in t.streams { assert n in t.promoted <==> t.promoted[n] >= 1; }
    }

    /** When groups reveal their streams for one fragment each, as when no fragments overlap, the protocol is kept. */
    lemma OneFragmentEach()
      requires Valid() && forall n, p, q :: n in graph.streams && n in Under(graph.children, p) && n in Under(graph.children, q) ==> p == q
      ensures Protocol(log)
    {
      ProtocolIff();
      Opens(graph.records, graph.T(), graph.W(), {}, {});
      UnsharedIsTakenOnce(graph.T(), graph.history);
    }

    /** Fragments are announced after those around them, which have been completed without errors by then. */
    lemma AnnouncedFromTheOutside()
      requires Valid()
      ensures Nested(graph.records, log)
    {
      var r, p := graph.records, FaceOf(graph.T(), graph.delivered);
      assert Agrees(OfNesting, r, B(), p) && Agrees(OfCompletions, r, B(), p);
      forall a: nat, b: nat, m: Node, q | m.Fragment? && Announced(log, a, m) && Announced(log, b, q) && Encloses(r, q, m)
        ensures b < a && Complete(b, q, false) in log
      {
        EnclosersAreDone(a, m, q);
        EnclosesIsOlder(r, q, m);
      }
    }

    /** Announced or not, a fragment around an announced one was completed or passed over, and never failed. */
    lemma EnclosersAreDone(id: nat, m: Node, q: Node)
      requires Valid() && m.Fragment? && Announced(log, id, m) && Encloses(graph.records, q, m)
      ensures q in graph.closed && q !in graph.lost
    {
      assert Agrees(OfFragments, graph.records, B(), FaceOf(graph.T(), graph.delivered));
      Opens(graph.records, graph.T(), graph.W(), {}, {});
      EnclosingIsDone(graph.records, graph.T(), m, q);
    }

    /** As long as the protocol is kept, `has_next` is false exactly when no announced id is open. */
    lemma HasNextExactly()
      requires Valid() && Protocol(log)
      ensures HasNext() <==> exists id: nat :: OpenId(log, id)
    {
      var r, p := graph.records, FaceOf(graph.T(), graph.delivered);
      assert Agrees(OfRoots, r, B(), p) && Agrees(OfFragments, r, B(), p) && Agrees(OfCompletions, r, B(), p) && Agrees(OfStreams, r, B(), p);
      ProtocolCounts();
      if n :| n in graph.roots { assert OpenId(log, ids[n]); }
      if id: nat :| OpenId(log, id) {
        var n :| Announced(log, id, n);
        if n.Fragment? && n in graph.closed { CompletedIsClosed(log, id, n, n in graph.lost); }
        assert n in graph.roots;
      }
    }

    lemma CompletedIsClosed(log: seq<Wire>, id: nat, n: Node, withErrors: bool)
      requires Complete(id, n, withErrors) in log
      ensures Closed(log, id)
    {
      var i :| 0 <= i < |log| && log[i] == Complete(id, n, withErrors);
    }

    /** Every open fragment has a group still being run. */
    lemma NeverStuck(f: Node)
      requires Valid() && f in graph.roots && f.Fragment?
      ensures exists g :: g in GroupsOf(graph.pending, f) && g in graph.running
    {
      Opens(graph.records, graph.T(), graph.W(), {}, {});
      assert GroupsOf(graph.pending, f) != {};
      var g :| g in GroupsOf(graph.pending, f);
      assert g in graph.running;
    }

    /** A run that ends without a failure has run every group once and delivered its data once, shared or not. */
    lemma AllDeliveredOnce(g: Group)
      requires Valid() && !graph.failed && !HasNext() && g in graph.registered
      ensures graph.started[g] == 1 && Deliveries(log)[g] == 1 && g !in graph.running
    {
      Opens(graph.records, graph.T(), graph.W(), {}, {});
      assert Agrees(OfCounts, graph.records, B(), FaceOf(graph.T(), graph.delivered));
      if n :| n in graph.waiting { NothingWaits(graph.records, graph.T(), n); }
      assert !CompletesRoot(graph.records, graph.roots, g);
    }
  }

  // ----- a stream revealed for two fragments -----

  /** Two top-level fragments that share every group. */
  function Overlapping(): (r: Records)
    ensures WellMade(r)
  {
    Records(_ => None, _ => [Fragment(0), Fragment(1)], _ => 0)
  }

  method EmptyPublisher(records: Records) returns (p: Publisher)
    requires WellMade(records)
    ensures p.Valid() && fresh(p) && fresh(p.graph) && p.graph.records == records
    ensures p.graph.T() == Tree({}, map[], {}, {}, {}, {}, multiset{}) && p.graph.W() == Work(map[], map[], multiset{}, {}, multiset{}, multiset{}, false)
  {
    var graph := new IncGraph(records);
    p := new Publisher(graph);
  }

  /** The initial result reveals a group of both fragments, so both are open and wait for it alone. */
  method OverlappingRun() returns (p: Publisher)
    ensures p.Valid() && fresh(p) && fresh(p.graph) && p.graph.records == Overlapping()
    ensures p.graph.streams == {} && BothWait(p.graph.T(), p.graph.W(), Group(0))
  {
    p := EmptyPublisher(Overlapping());
    var revealed := [NewGroup(Group(0))];
    assert NewGroup(Group(0)) in revealed;
    ghost var t, w := p.graph.T(), p.graph.W();
    ghost var newRoots := p.BuildResponse(revealed);
    Opens(p.graph.records, p.graph.T(), p.graph.W(), {}, {});
    BothOpen(t, w, newRoots, revealed, p.graph.T(), p.graph.W(), Group(0));
  }

  /** Both fragments are open, and wait for `g` alone. */
  ghost predicate BothWait(t: Tree, w: Work, g: Group)
  {
    forall f :: f == Fragment(0) || f == Fragment(1) ==> f in t.roots && GroupsOf(w.pending, f) == {g} && g in w.running
  }

  lemma BothOpen(t: Tree, w: Work, newRoots: seq<Node>, revealed: seq<Revealed>, t': Tree, w': Work, g: Group)
    requires t.roots == {} && t.streams == {} && w.pending == map[] && revealed == [NewGroup(g)] && RootsRun(t'.roots, w'.pending, w'.running)
    requires Promotes(Overlapping(), t, w, t', w', revealed, newRoots)
    ensures BothWait(t', w', g) && t'.streams == {}
  {
    var passed, mid, initial :|
      && Opened(t, t', newRoots, passed) && Added(Overlapping(), t, w, mid, w', revealed, []) && TopLevel(Overlapping(), initial) && Starts(initial, revealed, true)
      && TreeFits(Overlapping(), mid, FragmentsOf(initial)) && Wave(mid, t', w'.pending, initial, newRoots, passed);
    assert NewGroup(g) in revealed;
    forall f | f == Fragment(0) || f == Fragment(1) ensures f in t'.roots && GroupsOf(w'.pending, f) == {g} && g in w'.running {
      WaitsForIt(w.pending, w'.pending, revealed, g, f);
      OneIsOpen(t, newRoots, passed, mid, initial, revealed, t', w'.pending, g, f);
    }
  }

  lemma WaitsForIt(pending: map<Node, set<Group>>, pending': map<Node, set<Group>>, revealed: seq<Revealed>, g: Group, f: Node)
    requires pending == map[] && revealed == [NewGroup(g)] && AllJoined(Overlapping(), pending, pending', revealed) && f in [Fragment(0), Fragment(1)]
    ensures GroupsOf(pending', f) == {g}
  {
    assert NewGroup(g) in revealed && f in Overlapping().recordsOf(g);
    forall h ensures h in GroupsOf(pending', f) <==> h == g {
      assert h in GroupsOf(pending', f) <==> h in GroupsOf(pending, f) || (NewGroup(h) in revealed && f in Overlapping().recordsOf(h));
    }
  }

  lemma OneIsOpen(t: Tree, newRoots: seq<Node>, passed: set<Node>, mid: Tree, initial: seq<Node>, revealed: seq<Revealed>, t': Tree,
                  pending: map<Node, set<Group>>, g: Group, f: Node)
    requires t.roots == {} && mid.roots == t.roots && t'.roots == t.roots + Elements(newRoots) && MembersLive(Overlapping(), mid, revealed)
    requires NewGroup(g) in revealed && f in [Fragment(0), Fragment(1)] && GroupsOf(pending, f) == {g}
    requires Hangs(Overlapping(), mid, FragmentsOf(initial)) && Wave(mid, t', pending, initial, newRoots, passed)
    ensures f in t'.roots
  {
    assert f in Overlapping().recordsOf(g);
    assert f in Live(mid);
    assert f in mid.waiting && Overlapping().parentOf(f).None?;
    assert f in FragmentsOf(initial);
    CandidateIsTaken(mid, t', pending, initial, newRoots, passed, f);
  }

  /** The group's result reveals a stream: completing both fragments announces the stream twice. */
  method SharedStreamBreaksTheProtocol() returns (p: Publisher)
    ensures p.Valid() && p.graph.records == Overlapping()
    ensures Announcees(p.log)[Stream(0)] == 2 && !Protocol(p.log)
  {
    p := OverlappingRun();
    var revealed := [NewStream(Stream(0))];
    assert NewStream(Stream(0)) in revealed;
    ghost var t, w := p.graph.T(), p.graph.W();
    BothFinish(t, w, Group(0), revealed);
    p.HandleCompletedGroup(Group(0), revealed);
    assert p.graph.promoted[Stream(0)] == 2;
    TwiceIsTooOften(p, Stream(0));
  }

  lemma BothFinish(t: Tree, w: Work, g: Group, revealed: seq<Revealed>)
    requires BothWait(t, w, g) && forall h :: NewGroup(h) !in revealed
    ensures |Finishing(Overlapping(), t.roots, w.pending, g, revealed)| == 2
  {
    assert Fragment(0) in t.roots && Fragment(1) in t.roots;
    forall f ensures f in Finishing(Overlapping(), t.roots, w.pending, g, revealed) <==> f in {Fragment(0), Fragment(1)} {}
    assert Finishing(Overlapping(), t.roots, w.pending, g, revealed) == {Fragment(0), Fragment(1)};
  }

  lemma TwiceIsTooOften(p: Publisher, n: Node)
    requires p.Valid() && p.graph.promoted[n] == 2
    ensures Announcees(p.log)[n] == 2 && !Protocol(p.log)
  {
    assert Agrees(OfCounts, p.graph.records, p.B(), FaceOf(p.graph.T(), p.graph.delivered));
    p.ProtocolCounts();
  }
}
