/** The tree of an incremental response: which fragments and streams are announced, which still hang off a fragment, and
    which are done. */
module RecordTree {
  import opened Wrappers
  import opened Sequences

  datatype Node = Fragment(n: nat) | Stream(n: nat)

  /** An execution group: one grouped field set run for one or more fragments. */
  datatype Group = Group(n: nat)

  /** What a fragment's constructor and a group's fix once and for all. */
  datatype Records = Records(parentOf: Node -> Option<Node>, recordsOf: Group -> seq<Node>, depth: Node -> nat)

  /** Parents are older fragments; a group belongs to at least one fragment. */
  ghost predicate WellMade(r: Records)
  {
    && (forall f :: r.parentOf(f).Some? ==> r.parentOf(f).value.Fragment? && r.depth(r.parentOf(f).value) < r.depth(f))
    && (forall g :: r.recordsOf(g) != [] && forall m :: m in r.recordsOf(g) ==> m.Fragment?)
  }

  /** The roots, and what hangs off each fragment.  Of the fragments, `waiting` are those not yet announced, `closed` those
      completed, failed or passed over as empty, `lost` the failed ones; `streams` are the streams revealed so far;
      `promoted` counts how often each record became a root. */
  datatype Tree = Tree(roots: set<Node>, children: map<Node, seq<Node>>, waiting: set<Node>, closed: set<Node>, lost: set<Node>,
                       streams: set<Node>, promoted: multiset<Node>)

  function Under(children: map<Node, seq<Node>>, m: Node): seq<Node>
  {
    if m in children then children[m] else []
  }

  function Live(t: Tree): set<Node>
  {
    t.roots + t.waiting
  }

  /** Every fragment seen so far. */
  function Seen(t: Tree): set<Node>
  {
    t.roots + t.waiting + t.closed
  }

  function FragmentsOf(s: seq<Node>): (r: set<Node>)
    ensures forall n :: n in r <==> n in s && n.Fragment?
  {
    set n | n in s && n.Fragment?
  }

  // ----- what every operation keeps -----

  ghost predicate Kinds(t: Tree)
  {
    && (forall n :: n in t.waiting || n in t.closed ==> n.Fragment?)
    && (forall n :: n in t.streams ==> n.Stream?)
    && (forall n :: n in t.roots && n.Stream? ==> n in t.streams)
    && t.waiting !! t.roots && t.closed !! t.roots && t.waiting !! t.closed && t.lost <= t.closed
  }

  /** A fragment becomes a root at most once, a stream after it was revealed. */
  ghost predicate Counts(t: Tree)
  {
    forall n :: n in t.promoted ==> if n.Fragment? then t.promoted[n] == 1 && n in t.roots + t.closed else n in t.streams
  }

  /** The fragments under a live one wait under it, none of them loose. */
  ghost predicate Holds(r: Records, t: Tree, loose: set<Node>)
  {
    forall p, n :: p in Live(t) && n in Under(t.children, p) && n.Fragment? ==> n in t.waiting && n !in loose && r.parentOf(n) == Some(p)
  }

  /** Only known fragments have records under them, each once; the streams among these are revealed. */
  ghost predicate Lists(t: Tree)
  {
    && (forall p :: Under(t.children, p) != [] ==> p.Fragment? && p in Seen(t))
    && (forall p :: Distinct(Under(t.children, p)))
    && (forall p, n :: n in Under(t.children, p) && n.Stream? ==> n in t.streams)
  }

  /** Each waiting fragment, those of `loose` aside, hangs off its parent, which is live or failed. */
  ghost predicate Hangs(r: Records, t: Tree, loose: set<Node>)
  {
    forall n {:trigger r.parentOf(n)} :: n in t.waiting && n !in loose ==>
      r.parentOf(n).Some? && n in Under(t.children, r.parentOf(n).value) && r.parentOf(n).value in Live(t) + t.lost
  }

  /** Whatever was announced or passed over stands inside fragments that were completed or passed over, not failed. */
  ghost predicate Enclosed(r: Records, t: Tree, loose: set<Node>)
  {
    forall m: Node {:trigger r.parentOf(m)} :: m.Fragment? && m in t.roots + t.closed + loose && r.parentOf(m).Some? ==>
      r.parentOf(m).value in t.closed && r.parentOf(m).value !in t.lost
  }

  ghost predicate TreeFits(r: Records, t: Tree, loose: set<Node>)
  {
    Kinds(t) && Counts(t) && loose <= t.waiting && Holds(r, t, loose) && Lists(t) && Hangs(r, t, loose) && Enclosed(r, t, loose)
  }

  lemma NoTreeYet(r: Records, t: Tree)
    requires t == Tree({}, map[], {}, {}, {}, {}, multiset{})
    ensures TreeFits(r, t, {})
  {
    assert forall p :: Under(t.children, p) == [];
  }

  // ----- promotion -----

  /** A loose record becomes a root. */
  function Promoted(t: Tree, n: Node): Tree
  {
    t.(roots := t.roots + {n}, waiting := t.waiting - {n}, promoted := t.promoted + multiset{n})
  }

  /** A loose fragment with nothing to wait for is passed over. */
  function Skipped(t: Tree, n: Node): Tree
  {
    t.(waiting := t.waiting - {n}, closed := t.closed + {n})
  }

  lemma PromotedFits(r: Records, t: Tree, loose: set<Node>, n: Node, t': Tree)
    requires TreeFits(r, t, loose) && t' == Promoted(t, n) && if n.Fragment? then n in loose else n in t.streams
    ensures TreeFits(r, t', loose - {n}) && Seen(t') == Seen(t) + {n}
  {
    assert Seen(t') == Seen(t) + {n} && Live(t') == Live(t) + {n};
    PromotedCounts(t, n, t');
    assert n.Stream? ==> Under(t.children, n) == [];
  }

  lemma PromotedCounts(t: Tree, n: Node, t': Tree)
    requires Kinds(t) && Counts(t) && t' == Promoted(t, n) && if n.Fragment? then n in t.waiting else n in t.streams
    ensures Kinds(t') && Counts(t')
  {
    forall m | m in t'.promoted
      ensures if m.Fragment? then t'.promoted[m] == 1 && m in t'.roots + t'.closed else m in t'.streams
    {
      assert m == n || m in t.promoted;
    }
  }

  lemma SkippedFits(r: Records, t: Tree, loose: set<Node>, n: Node, t': Tree, loose': set<Node>)
    requires TreeFits(r, t, loose) && n in loose && t' == Skipped(t, n) && loose' == loose - {n} + FragmentsOf(Under(t.children, n))
    ensures TreeFits(r, t', loose') && Seen(t') == Seen(t) && FragmentsOf(Under(t.children, n)) !! loose
  {
    assert Live(t') == Live(t) - {n} && Seen(t') == Seen(t);
    forall c | c in FragmentsOf(Under(t.children, n)) ensures c in t.waiting && c !in loose && r.parentOf(c) == Some(n) && c != n {}
    LeavingHolds(r, t, loose, n, t', loose');
    LeavingHangs(r, t, loose, n, t', loose');
  }

  /** A fragment leaves, and what hung under it gets loose. */
  lemma LeavingHolds(r: Records, t: Tree, loose: set<Node>, n: Node, t': Tree, loose': set<Node>)
    requires Holds(r, t, loose) && n in Live(t) && Live(t') == Live(t) - {n} && t'.children == t.children && t'.waiting == t.waiting - {n}
    requires (n in loose || n !in t.waiting) && loose' == loose - {n} + FragmentsOf(Under(t.children, n))
    ensures Holds(r, t', loose')
  {
    forall p, m | p in Live(t') && m in Under(t.children, p) && m.Fragment?
      ensures m in t'.waiting && m !in loose' && r.parentOf(m) == Some(p)
    {
      assert m in FragmentsOf(Under(t.children, n)) ==> r.parentOf(m) == Some(n);
    }
  }

  lemma LeavingHangs(r: Records, t: Tree, loose: set<Node>, n: Node, t': Tree, loose': set<Node>)
    requires Hangs(r, t, loose) && Live(t') == Live(t) - {n} && t'.lost == t.lost && t'.children == t.children && t'.waiting == t.waiting - {n}
    requires loose' == loose - {n} + FragmentsOf(Under(t.children, n)) && n !in t.lost && Kinds(t)
    ensures Hangs(r, t', loose')
  {
    forall m | m in t'.waiting && m !in loose'
      ensures r.parentOf(m).Some? && m in Under(t.children, r.parentOf(m).value) && r.parentOf(m).value in Live(t') + t'.lost
    {
      assert m in t.waiting && m !in loose;
    }
  }

  // ----- new records -----

  /** A new fragment hung off `p`. */
  function Hung(t: Tree, m: Node, p: Node): Tree
  {
    t.(children := t.children[p := Under(t.children, p) + [m]], waiting := t.waiting + {m})
  }

  /** A new fragment that hangs off nothing yet. */
  function Loosened(t: Tree, m: Node): Tree
  {
    t.(waiting := t.waiting + {m})
  }

  /** A stream is revealed. */
  function Shown(t: Tree, n: Node): Tree
  {
    t.(streams := t.streams + {n})
  }

  /** A revealed stream hung off `p` too. */
  function Listed(t: Tree, n: Node, p: Node): Tree
  {
    t.(children := t.children[p := Under(t.children, p) + [n]])
  }

  /** Hanging `m` under `p` appends it there and changes no other list. */
  lemma UnderAfter(children: map<Node, seq<Node>>, m: Node, p: Node, children': map<Node, seq<Node>>)
    requires children' == children[p := Under(children, p) + [m]]
    ensures forall q :: Under(children', q) == if q == p then Under(children, p) + [m] else Under(children, q)
  {
  }

  lemma HungFits(r: Records, t: Tree, loose: set<Node>, m: Node, p: Node, t': Tree)
    requires TreeFits(r, t, loose) && t' == Hung(t, m, p)
    requires m.Fragment? && m !in Seen(t) && p in Live(t) && p.Fragment? && r.parentOf(m) == Some(p)
    ensures TreeFits(r, t', loose) && Seen(t') == Seen(t) + {m} && Live(t') == Live(t) + {m}
  {
    assert Seen(t') == Seen(t) + {m} && Live(t') == Live(t) + {m};
    UnderAfter(t.children, m, p, t'.children);
    NewIsUnlisted(r, t, loose, m, p);
    HungRest(r, t, loose, m, t');
    HungHolds(r, t, loose, m, p, t');
    AppendedLists(t, m, p, t');
    HungHangs(r, t, loose, m, p, t');
  }

  lemma NewIsUnlisted(r: Records, t: Tree, loose: set<Node>, m: Node, p: Node)
    requires Holds(r, t, loose) && Lists(t) && m.Fragment? && m !in Seen(t) && p in Live(t)
    ensures m !in Under(t.children, p) && Under(t.children, m) == []
  {
  }

  lemma HungRest(r: Records, t: Tree, loose: set<Node>, m: Node, t': Tree)
    requires Kinds(t) && Counts(t) && Enclosed(r, t, loose) && loose <= t.waiting && m.Fragment? && m !in Seen(t)
    requires t' == t.(children := t'.children, waiting := t.waiting + {m})
    ensures Kinds(t') && Counts(t') && Enclosed(r, t', loose) && loose <= t'.waiting
  {
  }

  lemma HungHolds(r: Records, t: Tree, loose: set<Node>, m: Node, p: Node, t': Tree)
    requires Holds(r, t, loose) && t' == Hung(t, m, p) && m !in Seen(t) && Live(t') == Live(t) + {m} && loose <= t.waiting
    requires Under(t.children, m) == [] && p in Live(t) && r.parentOf(m) == Some(p)
    requires forall q :: Under(t'.children, q) == if q == p then Under(t.children, p) + [m] else Under(t.children, q)
    ensures Holds(r, t', loose)
  {
    forall q, n | q in Live(t') && n in Under(t'.children, q) && n.Fragment?
      ensures n in t'.waiting && n !in loose && r.parentOf(n) == Some(q)
    {
      if n == m {
        assert n in Under(t.children, q) ==> q in Live(t);
        assert q == p;
      } else {
        assert n in Under(t.children, q) && q in Live(t);
      }
    }
  }

  lemma HungHangs(r: Records, t: Tree, loose: set<Node>, m: Node, p: Node, t': Tree)
    requires Hangs(r, t, loose) && t' == Hung(t, m, p) && Live(t') == Live(t) + {m} && p in Live(t) && r.parentOf(m) == Some(p)
    requires forall q :: Under(t'.children, q) == if q == p then Under(t.children, p) + [m] else Under(t.children, q)
    ensures Hangs(r, t', loose)
  {
    forall n | n in t'.waiting && n !in loose
      ensures r.parentOf(n).Some? && n in Under(t'.children, r.parentOf(n).value) && r.parentOf(n).value in Live(t') + t'.lost
    {
      assert n == m || n in t.waiting;
    }
  }

  lemma AppendedLists(t: Tree, m: Node, p: Node, t': Tree)
    requires Lists(t) && p.Fragment? && p in Seen(t) && m !in Under(t.children, p) && Seen(t) <= Seen(t') && t'.streams == t.streams
    requires m.Stream? ==> m in t.streams
    requires forall q :: Under(t'.children, q) == if q == p then Under(t.children, p) + [m] else Under(t.children, q)
    ensures Lists(t')
  {
    DistinctAppend(Under(t.children, p), m);
    forall q, n | n in Under(t'.children, q) && n.Stream? ensures n in t'.streams { assert n == m || n in Under(t.children, q); }
  }

  lemma LoosenedFits(r: Records, t: Tree, loose: set<Node>, m: Node, t': Tree)
    requires TreeFits(r, t, loose) && t' == Loosened(t, m) && m.Fragment? && m !in Seen(t) && r.parentOf(m).None?
    ensures TreeFits(r, t', loose + {m}) && Seen(t') == Seen(t) + {m}
  {
    assert Under(t.children, m) == [];
    assert Seen(t') == Seen(t) + {m} && Live(t') == Live(t) + {m};
  }

  lemma ShownFits(r: Records, t: Tree, loose: set<Node>, n: Node, t': Tree)
    requires TreeFits(r, t, loose) && t' == Shown(t, n) && n.Stream?
    ensures TreeFits(r, t', loose) && Seen(t') == Seen(t)
  {
    assert Live(t') == Live(t) && Seen(t') == Seen(t);
  }

  lemma ListedFits(r: Records, t: Tree, loose: set<Node>, n: Node, p: Node, t': Tree)
    requires TreeFits(r, t, loose) && t' == Listed(t, n, p) && n.Stream? && n in t.streams && p in Live(t) && p.Fragment? && n !in Under(t.children, p)
    ensures TreeFits(r, t', loose) && Seen(t') == Seen(t)
  {
    assert Live(t') == Live(t) && Seen(t') == Seen(t);
    UnderAfter(t.children, n, p, t'.children);
    AppendedLists(t, n, p, t');
    forall q, m: Node | m.Fragment? ensures m in Under(t'.children, q) <==> m in Under(t.children, q) {}
  }

  /** A waiting fragment's place: under its parent, or among the loose ones when it has none. */
  lemma WaitingIsPlaced(r: Records, t: Tree, loose: set<Node>, m: Node)
    requires Hangs(r, t, loose) && m in t.waiting && forall n :: n in loose ==> r.parentOf(n).None?
    ensures if r.parentOf(m).None? then m in loose else m in Under(t.children, r.parentOf(m).value)
  {
  }

  // ----- leaving -----

  /** A fragment that is done leaves the roots. */
  function Released(t: Tree, f: Node): Tree
  {
    t.(roots := t.roots - {f}, closed := t.closed + {f})
  }

  lemma ReleasedFits(r: Records, t: Tree, f: Node, t': Tree)
    requires TreeFits(r, t, {}) && f in t.roots && f.Fragment? && t' == Released(t, f)
    ensures TreeFits(r, t', FragmentsOf(Under(t.children, f))) && Seen(t') == Seen(t)
  {
    var loose := FragmentsOf(Under(t.children, f));
    assert Live(t') == Live(t) - {f} && Seen(t') == Seen(t);
    assert {} - {f} + loose == loose && t.waiting - {f} == t.waiting;
    LeavingHolds(r, t, {}, f, t', loose);
    LeavingHangs(r, t, {}, f, t', loose);
  }

  /** A failed fragment leaves; what waits under it is never promoted. */
  function Dropped(t: Tree, f: Node): Tree
  {
    t.(roots := t.roots - {f}, closed := t.closed + {f}, lost := t.lost + {f})
  }

  lemma DroppedFits(r: Records, t: Tree, f: Node, t': Tree)
    requires TreeFits(r, t, {}) && f in t.roots && f.Fragment? && t' == Dropped(t, f)
    ensures TreeFits(r, t', {}) && Seen(t') == Seen(t)
  {
    assert Live(t') == Live(t) - {f} && Seen(t') == Seen(t);
    forall n | n in t'.waiting ensures r.parentOf(n).Some? && r.parentOf(n).value in Live(t') + t'.lost { assert n in t.waiting; }
  }

  /** A finished stream leaves. */
  function Finished(t: Tree, n: Node): Tree
  {
    t.(roots := t.roots - {n})
  }

  lemma FinishedFits(r: Records, t: Tree, n: Node, t': Tree)
    requires TreeFits(r, t, {}) && n in t.roots && n.Stream? && t' == Finished(t, n)
    ensures TreeFits(r, t', {}) && Seen(t) == Seen(t') + {n}
  {
    assert Live(t') <= Live(t) && Seen(t) == Seen(t') + {n};
    assert Under(t.children, n) == [];
    forall m | m in t'.waiting ensures r.parentOf(m).Some? && r.parentOf(m).value in Live(t') + t'.lost {
      assert m in Under(t.children, r.parentOf(m).value);
    }
  }

  // ----- one promotion wave -----

  function ChildrenOf(children: map<Node, seq<Node>>, parents: set<Node>): (r: set<Node>)
    ensures forall c :: c in r <==> exists p :: p in parents && c in Under(children, p)
  {
    set p, c | p in parents && c in Under(children, p) :: c
  }
}
