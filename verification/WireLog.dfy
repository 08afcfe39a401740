/** The wire protocol of an incremental response: ids, announcements, deliveries and completions. */
module WireLog {
  import opened Wrappers
  import opened Sequences
  import opened RecordTree

  /** What a payload says: a record is pending under an id, an id is completed, a group's data, a stream's items. */
  datatype Wire = Announce(id: nat, node: Node) | Complete(id: nat, node: Node, withErrors: bool) | Deliver(group: Group) | Items(id: nat)

  ghost predicate Announced(log: seq<Wire>, id: nat, n: Node)
  {
    Announce(id, n) in log
  }

  ghost predicate Closed(log: seq<Wire>, id: nat)
  {
    exists i :: 0 <= i < |log| && log[i].Complete? && log[i].id == id
  }

  /** Announced and not completed. */
  ghost predicate OpenId(log: seq<Wire>, id: nat)
  {
    (exists n :: Announced(log, id, n)) && !Closed(log, id)
  }

  /** Ids are handed out in rising order; an id is completed at most once and after it was announced for that record. */
  ghost predicate Ordered(log: seq<Wire>)
  {
    && (forall i, j :: 0 <= i < j < |log| && log[i].Announce? && log[j].Announce? ==> log[i].id < log[j].id)
    && (forall j :: 0 <= j < |log| && log[j].Complete? ==> Announce(log[j].id, log[j].node) in log[..j])
    && (forall i, j :: 0 <= i < j < |log| && log[i].Complete? && log[j].Complete? ==> log[i].id != log[j].id)
  }

  /** A record is announced at most once. */
  ghost predicate ToldOnce(log: seq<Wire>)
  {
    forall i, j :: 0 <= i < j < |log| && log[i].Announce? && log[j].Announce? ==> log[i].node != log[j].node
  }

  /** The protocol, as far as the log goes. */
  ghost predicate Protocol(log: seq<Wire>)
  {
    Ordered(log) && ToldOnce(log)
  }

  /** `q` is a fragment around `m`. */
  ghost predicate Encloses(r: Records, q: Node, m: Node)
    requires WellMade(r)
    decreases r.depth(m)
  {
    r.parentOf(m).Some? && (r.parentOf(m).value == q || Encloses(r, q, r.parentOf(m).value))
  }

  /** A fragment is announced after those around it, and these were completed without errors. */
  ghost predicate Nested(r: Records, log: seq<Wire>)
    requires WellMade(r)
  {
    forall a: nat, b: nat, m: Node, q :: m.Fragment? && Announced(log, a, m) && Announced(log, b, q) && Encloses(r, q, m) ==>
      b < a && Complete(b, q, false) in log
  }

  function Deliveries(log: seq<Wire>): multiset<Group>
    decreases |log|
  {
    if log == [] then multiset{}
    else Deliveries(log[..|log| - 1]) + match log[|log| - 1] case Deliver(g) => multiset{g} case _ => multiset{}
  }

  function Announcees(log: seq<Wire>): multiset<Node>
    decreases |log|
  {
    if log == [] then multiset{}
    else Announcees(log[..|log| - 1]) + match log[|log| - 1] case Announce(_, n) => multiset{n} case _ => multiset{}
  }

  lemma CountsAppend(log: seq<Wire>, w: Wire)
    ensures Deliveries(log + [w]) == Deliveries(log) + if w.Deliver? then multiset{w.group} else multiset{}
    ensures Announcees(log + [w]) == Announcees(log) + if w.Announce? then multiset{w.node} else multiset{}
  {
    assert (log + [w])[..|log|] == log;
  }

  lemma Appended(log: seq<Wire>, w: Wire)
    ensures forall id: nat, n :: Announced(log + [w], id, n) <==> Announced(log, id, n) || w == Announce(id, n)
    ensures forall id: nat :: Closed(log + [w], id) <==> Closed(log, id) || (w.Complete? && w.id == id)
  {
    var log' := log + [w];
    forall id: nat | Closed(log, id) ensures Closed(log', id) {
      var i :| 0 <= i < |log| && log[i].Complete? && log[i].id == id;
      assert log'[i] == log[i];
    }
    if w.Complete? { assert log'[|log|] == w; }
  }

  lemma {:induction false} AnnouncedCounts(log: seq<Wire>, id: nat, n: Node)
    requires Announced(log, id, n)
    ensures Announcees(log)[n] >= 1
    decreases |log|
  {
    var last := |log| - 1;
    if log[last] != Announce(id, n) {
      assert log == log[..last] + [log[last]];
      AnnouncedCounts(log[..last], id, n);
    }
  }

  ghost predicate Told(log: seq<Wire>, n: Node)
  {
    exists i :: 0 <= i < |log| && log[i].Announce? && log[i].node == n
  }

  lemma ToldAppend(rest: seq<Wire>, w: Wire, n: Node)
    ensures Told(rest + [w], n) <==> Told(rest, n) || (w.Announce? && w.node == n)
  {
    var log := rest + [w];
    if Told(rest, n) {
      var i :| 0 <= i < |rest| && rest[i].Announce? && rest[i].node == n;
      assert log[i] == rest[i];
    }
    assert log[|rest|] == w;
  }

  lemma {:induction false} CountedWasTold(log: seq<Wire>, n: Node)
    ensures Announcees(log)[n] >= 1 <==> Told(log, n)
    decreases |log|
  {
    if log != [] {
      var rest, w := log[..|log| - 1], log[|log| - 1];
      assert log == rest + [w];
      CountedWasTold(rest, n);
      CountsAppend(rest, w);
      ToldAppend(rest, w, n);
    }
  }

  ghost predicate CountedOnce(log: seq<Wire>)
  {
    forall n :: Announcees(log)[n] <= 1
  }

  /** Counting the announcements tells whether each record is announced once. */
  lemma {:induction false} ToldOnceIff(log: seq<Wire>)
    ensures ToldOnce(log) <==> CountedOnce(log)
    decreases |log|
  {
    if log != [] {
      var rest, w := log[..|log| - 1], log[|log| - 1];
      assert log == rest + [w];
      ToldOnceIff(rest);
      ToldOneMore(rest, w);
      CountedOneMore(rest, w);
      if w.Announce? { CountedWasTold(rest, w.node); }
    }
  }

  lemma ToldOneMore(rest: seq<Wire>, w: Wire)
    ensures ToldOnce(rest + [w]) <==> ToldOnce(rest) && (w.Announce? ==> !Told(rest, w.node))
  {
    var log, last := rest + [w], |rest|;
    assert forall i :: 0 <= i < last ==> log[i] == rest[i];
    if ToldOnce(log) {
      forall i, j | 0 <= i < j < |rest| && rest[i].Announce? && rest[j].Announce? ensures rest[i].node != rest[j].node { assert log[i] == rest[i] && log[j] == rest[j]; }
      forall i | 0 <= i < |rest| && rest[i].Announce? ensures w.Announce? ==> rest[i].node != w.node { assert log[i] == rest[i] && log[last] == w; }
    }
    if ToldOnce(rest) && (w.Announce? ==> !Told(rest, w.node)) {
      forall i, j | 0 <= i < j < |log| && log[i].Announce? && log[j].Announce? ensures log[i].node != log[j].node {
        assert log[i] == rest[i];
        if j < last { assert log[j] == rest[j]; }
      }
    }
  }

  lemma CountedOneMore(rest: seq<Wire>, w: Wire)
    ensures CountedOnce(rest + [w]) <==> CountedOnce(rest) && (w.Announce? ==> Announcees(rest)[w.node] == 0)
  {
    CountsAppend(rest, w);
    var log := rest + [w];
    if CountedOnce(log) {
      forall n ensures Announcees(rest)[n] <= 1 { assert Announcees(log)[n] <= 1; }
      if w.Announce? { assert Announcees(log)[w.node] <= 1; }
    }
    if CountedOnce(rest) && (w.Announce? ==> Announcees(rest)[w.node] == 0) {
      forall n ensures Announcees(log)[n] <= 1 { assert Announcees(rest)[n] <= 1; }
    }
  }

  // ----- ids in order -----

  lemma OrderedAnnounces(log: seq<Wire>, id: nat, n: Node)
    requires Ordered(log) && forall i: nat, m :: Announced(log, i, m) ==> i < id
    ensures Ordered(log + [Announce(id, n)])
  {
    var log' := log + [Announce(id, n)];
    forall i, j | 0 <= i < j < |log'| && log'[i].Announce? && log'[j].Announce? ensures log'[i].id < log'[j].id {
      if j == |log| { assert Announced(log, log[i].id, log[i].node); }
    }
    forall j | 0 <= j < |log'| && log'[j].Complete? ensures Announce(log'[j].id, log'[j].node) in log'[..j] { assert log'[..j] == log[..j]; }
  }

  lemma OrderedCompletes(log: seq<Wire>, id: nat, n: Node, withErrors: bool)
    requires Ordered(log) && Announced(log, id, n) && !Closed(log, id)
    ensures Ordered(log + [Complete(id, n, withErrors)])
  {
    var log' := log + [Complete(id, n, withErrors)];
    forall j | 0 <= j < |log'| && log'[j].Complete? ensures Announce(log'[j].id, log'[j].node) in log'[..j] {
      if j < |log| { assert log'[..j] == log[..j]; } else { assert log'[..j] == log; }
    }
  }

  lemma OrderedGoesOn(log: seq<Wire>, w: Wire)
    requires Ordered(log) && (w.Deliver? || w.Items?)
    ensures Ordered(log + [w])
  {
    var log' := log + [w];
    forall j | 0 <= j < |log'| && log'[j].Complete? ensures Announce(log'[j].id, log'[j].node) in log'[..j] { assert log'[..j] == log[..j]; }
  }

  lemma OneRecordPerId(log: seq<Wire>, id: nat, n: Node, m: Node)
    requires Ordered(log) && Announced(log, id, n) && Announced(log, id, m)
    ensures n == m
  {
    var i :| 0 <= i < |log| && log[i] == Announce(id, n);
    var j :| 0 <= j < |log| && log[j] == Announce(id, m);
    assert i == j || i < j || j < i;
  }

  lemma ClosedWasAnnounced(log: seq<Wire>, id: nat)
    requires Ordered(log) && Closed(log, id)
    ensures exists n :: Announced(log, id, n)
  {
    var i :| 0 <= i < |log| && log[i].Complete? && log[i].id == id;
    assert Announce(log[i].id, log[i].node) in log[..i];
    assert Announced(log, id, log[i].node);
  }

  // ----- the publisher's book against the tree -----

  /** The next id, each root's id, and the log of everything sent. */
  datatype Book = Book(nextId: nat, ids: map<Node, nat>, log: seq<Wire>)

  /** What of the graph shows on the wire. */
  datatype Face = Face(roots: set<Node>, closed: set<Node>, lost: set<Node>, promoted: multiset<Node>, delivered: multiset<Group>)

  /** What the book says about the graph: ids are in order; exactly one open id belongs to each root; a fragment that was
      announced is an open root or was completed, with errors when it failed; a stream announced once is open as long as
      it is a root; the counts agree; fragments are announced from the outside in. */
  datatype Entry = OfOrder | OfRoots | OfFragments | OfCompletions | OfStreams | OfCounts | OfNesting

  ghost predicate Agrees(c: Entry, r: Records, b: Book, p: Face)
    requires WellMade(r)
  {
    match c
    case OfOrder => Ordered(b.log) && forall id: nat, n :: Announced(b.log, id, n) ==> id < b.nextId
    case OfRoots => p.roots !! p.closed && forall n :: n in p.roots ==> n in b.ids && Announced(b.log, b.ids[n], n) && !Closed(b.log, b.ids[n])
    case OfFragments =>
      forall id: nat, n: Node :: Announced(b.log, id, n) && n.Fragment? ==> n in p.closed || (n in p.roots && n in b.ids && b.ids[n] == id)
    case OfCompletions => forall id: nat, n: Node :: Announced(b.log, id, n) && n.Fragment? && n in p.closed ==> Complete(id, n, n in p.lost) in b.log
    case OfStreams =>
      forall id: nat, n: Node :: Announced(b.log, id, n) && n.Stream? && !Closed(b.log, id) && p.promoted[n] <= 1 ==>
        n in p.roots && n in b.ids && b.ids[n] == id
    case OfCounts => Announcees(b.log) == p.promoted && Deliveries(b.log) == p.delivered
    case OfNesting => FromTheOutside(r, b.log)
  }

  /** A fragment's id is larger than those of the fragments around it. */
  ghost predicate FromTheOutside(r: Records, log: seq<Wire>)
    requires WellMade(r)
  {
    forall a: nat, b: nat, m: Node, q :: m.Fragment? && Announced(log, a, m) && Announced(log, b, q) && Encloses(r, q, m) ==> b < a
  }

  ghost predicate Mirrors(r: Records, b: Book, p: Face)
    requires WellMade(r)
  {
    forall c :: Agrees(c, r, b, p)
  }

  lemma NothingSaid(r: Records, b: Book, p: Face)
    requires WellMade(r) && b == Book(0, map[], []) && p == Face({}, {}, {}, multiset{}, multiset{})
    ensures Mirrors(r, b, p)
  {
  }

  // ----- an announcement -----

  function Issued(b: Book, n: Node): Book
  {
    Book(b.nextId + 1, b.ids[n := b.nextId], b.log + [Announce(b.nextId, n)])
  }

  function Opening(p: Face, n: Node): Face
  {
    p.(roots := p.roots + {n}, promoted := p.promoted + multiset{n})
  }

  /** No fragment announced already stands inside `n`. */
  ghost predicate AroundNone(r: Records, log: seq<Wire>, n: Node)
    requires WellMade(r)
  {
    forall id: nat, m: Node :: Announced(log, id, m) && m.Fragment? ==> !Encloses(r, n, m)
  }

  lemma AnnounceKeeps(r: Records, b: Book, p: Face, n: Node)
    requires WellMade(r) && Mirrors(r, b, p) && AroundNone(r, b.log, n) && n !in p.closed && (n.Fragment? ==> n !in p.roots)
    ensures Mirrors(r, Issued(b, n), Opening(p, n))
  {
    var b', p' := Issued(b, n), Opening(p, n);
    Appended(b.log, Announce(b.nextId, n));
    assert Agrees(OfOrder, r, b, p);
    forall c ensures Agrees(c, r, b', p') {
      assert Agrees(c, r, b, p);
      match c
      case OfOrder => OrderedAnnounces(b.log, b.nextId, n);
      case OfRoots => AnnounceKeepsRoots(r, b, p, n, b', p');
      case OfFragments => AnnounceKeepsFragments(r, b, p, n, b', p');
      case OfCompletions => AnnounceKeepsCompletions(r, b, p, n, b', p');
      case OfStreams => AnnounceKeepsStreams(r, b, p, n, b', p');
      case OfCounts => CountsAppend(b.log, Announce(b.nextId, n));
      case OfNesting => AnnounceKeepsNesting(r, b, n, b'.log);
    }
  }

  lemma AnnounceKeepsRoots(r: Records, b: Book, p: Face, n: Node, b': Book, p': Face)
    requires WellMade(r) && Agrees(OfRoots, r, b, p) && Agrees(OfOrder, r, b, p) && n !in p.closed && b' == Issued(b, n) && p' == Opening(p, n)
    requires forall id: nat, m :: Announced(b'.log, id, m) <==> Announced(b.log, id, m) || (id == b.nextId && m == n)
    requires forall id: nat :: Closed(b'.log, id) <==> Closed(b.log, id)
    ensures Agrees(OfRoots, r, b', p')
  {
    if Closed(b.log, b.nextId) { ClosedWasAnnounced(b.log, b.nextId); }
    forall m | m in p'.roots ensures m in b'.ids && Announced(b'.log, b'.ids[m], m) && !Closed(b'.log, b'.ids[m]) {
      assert m == n || m in p.roots;
    }
  }

  lemma AnnounceKeepsFragments(r: Records, b: Book, p: Face, n: Node, b': Book, p': Face)
    requires WellMade(r) && Agrees(OfFragments, r, b, p) && n !in p.closed && (n.Fragment? ==> n !in p.roots) && b' == Issued(b, n) && p' == Opening(p, n)
    requires forall id: nat, m :: Announced(b'.log, id, m) <==> Announced(b.log, id, m) || (id == b.nextId && m == n)
    ensures Agrees(OfFragments, r, b', p')
  {
    forall id: nat, m: Node | Announced(b'.log, id, m) && m.Fragment? ensures m in p'.closed || (m in p'.roots && m in b'.ids && b'.ids[m] == id) {
      if m != n { assert Announced(b.log, id, m); }
    }
  }

  lemma AnnounceKeepsCompletions(r: Records, b: Book, p: Face, n: Node, b': Book, p': Face)
    requires WellMade(r) && Agrees(OfCompletions, r, b, p) && n !in p.closed && b' == Issued(b, n) && p' == Opening(p, n)
    requires forall id: nat, m :: Announced(b'.log, id, m) <==> Announced(b.log, id, m) || (id == b.nextId && m == n)
    ensures Agrees(OfCompletions, r, b', p')
  {
    forall id: nat, m: Node | Announced(b'.log, id, m) && m.Fragment? && m in p'.closed ensures Complete(id, m, m in p'.lost) in b'.log {
      assert Complete(id, m, m in p.lost) in b.log;
    }
  }

  lemma AnnounceKeepsStreams(r: Records, b: Book, p: Face, n: Node, b': Book, p': Face)
    requires WellMade(r) && Agrees(OfStreams, r, b, p) && Agrees(OfCounts, r, b, p) && b' == Issued(b, n) && p' == Opening(p, n)
    requires forall id: nat, m :: Announced(b'.log, id, m) <==> Announced(b.log, id, m) || (id == b.nextId && m == n)
    requires forall id: nat :: Closed(b'.log, id) <==> Closed(b.log, id)
    ensures Agrees(OfStreams, r, b', p')
  {
    forall id: nat, m: Node | Announced(b'.log, id, m) && m.Stream? && !Closed(b'.log, id) && p'.promoted[m] <= 1
      ensures m in p'.roots && m in b'.ids && b'.ids[m] == id
    {
      if Announced(b.log, id, m) { AnnouncedCounts(b.log, id, m); }
    }
  }

  lemma AnnounceKeepsNesting(r: Records, b: Book, n: Node, log': seq<Wire>)
    requires WellMade(r) && FromTheOutside(r, b.log) && AroundNone(r, b.log, n)
    requires forall id: nat, m :: Announced(log', id, m) <==> Announced(b.log, id, m) || (id == b.nextId && m == n)
    requires forall id: nat, m :: Announced(b.log, id, m) ==> id < b.nextId
    ensures FromTheOutside(r, log')
  {
    EnclosesIsOlder(r, n, n);
    forall x: nat, y: nat, m: Node, q | m.Fragment? && Announced(log', x, m) && Announced(log', y, q) && Encloses(r, q, m) ensures y < x {
      if Announced(b.log, x, m) {
        assert q != n;
      }
    }
  }

  lemma {:induction false} EnclosesIsOlder(r: Records, q: Node, m: Node)
    requires WellMade(r)
    ensures Encloses(r, q, m) ==> r.depth(q) < r.depth(m) && q.Fragment?
    decreases r.depth(m)
  {
    if r.parentOf(m).Some? {
      EnclosesIsOlder(r, q, r.parentOf(m).value);
    }
  }

  // ----- a completion -----

  function Ended(b: Book, n: Node, withErrors: bool): Book
    requires n in b.ids
  {
    b.(log := b.log + [Complete(b.ids[n], n, withErrors)])
  }

  function Ending(p: Face, n: Node, withErrors: bool): Face
  {
    if n.Fragment? then p.(roots := p.roots - {n}, closed := p.closed + {n}, lost := if withErrors then p.lost + {n} else p.lost)
    else p.(roots := p.roots - {n})
  }

  lemma EndKeeps(r: Records, b: Book, p: Face, n: Node, withErrors: bool)
    requires WellMade(r) && Mirrors(r, b, p) && n in p.roots && n in b.ids && (n.Fragment? ==> n !in p.lost)
    ensures Mirrors(r, Ended(b, n, withErrors), Ending(p, n, withErrors))
  {
    var b', p' := Ended(b, n, withErrors), Ending(p, n, withErrors);
    var w := Complete(b.ids[n], n, withErrors);
    Appended(b.log, w);
    CountsAppend(b.log, w);
    assert Agrees(OfOrder, r, b, p) && Agrees(OfRoots, r, b, p) && Agrees(OfFragments, r, b, p);
    forall c ensures Agrees(c, r, b', p') {
      assert Agrees(c, r, b, p);
      match c
      case OfOrder => OrderedCompletes(b.log, b.ids[n], n, withErrors);
      case OfRoots => EndKeepsRoots(r, b, p, n, b', p');
      case OfFragments =>
      case OfCompletions => EndKeepsCompletions(r, b, p, n, withErrors, b', p');
      case OfStreams => EndKeepsStreams(r, b, p, n, withErrors, b', p');
      case OfCounts =>
      case OfNesting =>
    }
  }

  lemma EndKeepsRoots(r: Records, b: Book, p: Face, n: Node, b': Book, p': Face)
    requires WellMade(r) && Agrees(OfRoots, r, b, p) && Agrees(OfOrder, r, b, p) && n in p.roots
    requires b' == b.(log := b'.log) && p'.roots == p.roots - {n} && (p'.closed == p.closed || p'.closed == p.closed + {n})
    requires forall id: nat, m :: Announced(b'.log, id, m) <==> Announced(b.log, id, m)
    requires forall id: nat :: Closed(b'.log, id) <==> Closed(b.log, id) || id == b.ids[n]
    ensures Agrees(OfRoots, r, b', p')
  {
    forall m | m in p'.roots ensures m in b'.ids && Announced(b'.log, b'.ids[m], m) && !Closed(b'.log, b'.ids[m]) {
      if b.ids[m] == b.ids[n] { OneRecordPerId(b.log, b.ids[n], n, m); }
    }
  }

  lemma EndKeepsCompletions(r: Records, b: Book, p: Face, n: Node, withErrors: bool, b': Book, p': Face)
    requires WellMade(r) && Agrees(OfCompletions, r, b, p) && Agrees(OfFragments, r, b, p) && n in p.roots && n in b.ids && n !in p.closed
    requires b' == Ended(b, n, withErrors) && p' == Ending(p, n, withErrors) && (n.Fragment? ==> n !in p.lost)
    requires forall id: nat, m :: Announced(b'.log, id, m) <==> Announced(b.log, id, m)
    ensures Agrees(OfCompletions, r, b', p')
  {
    forall id: nat, m: Node | Announced(b'.log, id, m) && m.Fragment? && m in p'.closed ensures Complete(id, m, m in p'.lost) in b'.log {
      if m == n {
        assert Announced(b.log, id, n);
        assert b'.log[|b.log|] == Complete(b.ids[n], n, withErrors);
      } else {
        assert Complete(id, m, m in p.lost) in b.log;
      }
    }
  }

  lemma EndKeepsStreams(r: Records, b: Book, p: Face, n: Node, withErrors: bool, b': Book, p': Face)
    requires WellMade(r) && Agrees(OfStreams, r, b, p) && n in p.roots && n in b.ids
    requires b' == Ended(b, n, withErrors) && p' == Ending(p, n, withErrors)
    requires forall id: nat, m :: Announced(b'.log, id, m) <==> Announced(b.log, id, m)
    requires forall id: nat :: Closed(b'.log, id) <==> Closed(b.log, id) || id == b.ids[n]
    ensures Agrees(OfStreams, r, b', p')
  {
    forall id: nat, m: Node | Announced(b'.log, id, m) && m.Stream? && !Closed(b'.log, id) && p'.promoted[m] <= 1
      ensures m in p'.roots && m in b'.ids && b'.ids[m] == id
    {
      assert Announced(b.log, id, m) && !Closed(b.log, id);
    }
  }

  // ----- data and items -----

  function Sent(b: Book, w: Wire): Book
  {
    b.(log := b.log + [w])
  }

  function Sending(p: Face, w: Wire): Face
  {
    if w.Deliver? then p.(delivered := p.delivered + multiset{w.group}) else p
  }

  lemma SendKeeps(r: Records, b: Book, p: Face, w: Wire)
    requires WellMade(r) && Mirrors(r, b, p) && (w.Deliver? || w.Items?)
    ensures Mirrors(r, Sent(b, w), Sending(p, w))
  {
    var b', p' := Sent(b, w), Sending(p, w);
    Appended(b.log, w);
    CountsAppend(b.log, w);
    forall c ensures Agrees(c, r, b', p') {
      assert Agrees(c, r, b, p);
      match c
      case OfOrder => OrderedGoesOn(b.log, w);
      case OfRoots =>
      case OfFragments =>
      case OfCompletions => SendKeepsCompletions(r, b, p, w);
      case OfStreams =>
      case OfCounts =>
      case OfNesting =>
    }
  }

  lemma SendKeepsCompletions(r: Records, b: Book, p: Face, w: Wire)
    requires WellMade(r) && Agrees(OfCompletions, r, b, p) && (w.Deliver? || w.Items?)
    ensures Agrees(OfCompletions, r, Sent(b, w), Sending(p, w))
  {
    Appended(b.log, w);
    forall id: nat, m: Node | Announced(b.log + [w], id, m) && m.Fragment? && m in p.closed ensures Complete(id, m, m in p.lost) in b.log + [w] {
      assert Announced(b.log, id, m);
    }
  }

  // ----- fragments passed over -----

  lemma PassKeeps(r: Records, b: Book, p: Face, passed: set<Node>, p': Face)
    requires WellMade(r) && Mirrors(r, b, p) && passed !! p.roots && passed !! p.closed && p' == p.(closed := p.closed + passed)
    ensures Mirrors(r, b, p')
  {
    assert Agrees(OfFragments, r, b, p);
    forall c ensures Agrees(c, r, b, p') {
      assert Agrees(c, r, b, p);
      match c
      case OfOrder =>
      case OfRoots =>
      case OfFragments =>
      case OfCompletions =>
      case OfStreams =>
      case OfCounts =>
      case OfNesting =>
    }
  }
}
