/** Keyset paging of a connection: what following cursors visits. */
module Paging {
  import opened Wrappers
  import opened Sequences
  import opened Keyset

  function Reversed(s: seq<Row>): (r: seq<Row>)
    ensures |r| == |s| && forall i :: 0 <= i < |s| ==> r[i] == s[|s| - 1 - i]
    ensures Elements(r) == Elements(s)
  {
    var r := seq(|s|, i requires 0 <= i < |s| => s[|s| - 1 - i]);
    assert forall i :: 0 <= i < |s| ==> s[i] == r[|s| - 1 - i];
    r
  }

  // ----- rows in order -----

  ghost predicate Sorted(terms: seq<OrderTerm>, s: seq<Row>)
  {
    && (forall i :: 0 <= i < |s| ==> HasColumns(terms, s[i]))
    && (forall i, j :: 0 <= i < j < |s| ==> Comes(terms, s[i], s[j]))
  }

  lemma ComesOneWay(terms: seq<OrderTerm>, a: Row, b: Row)
    requires Comes(terms, a, b)
    ensures !Comes(terms, b, a)
  {
    BeforeIsAsymmetric(terms, KeyOf(terms, a), KeyOf(terms, b));
  }

  /** A row set has one sorted listing. */
  lemma {:induction false} SortedIsUnique(terms: seq<OrderTerm>, s: seq<Row>, t: seq<Row>)
    requires Sorted(terms, s) && Sorted(terms, t) && Elements(s) == Elements(t)
    ensures s == t
    decreases |s|
  {
    assert t == [] || t[0] in Elements(s);
    assert s == [] || s[0] in Elements(t);
    if s != [] {
      FirstIsFirst(terms, s, t);
      RestOfSorted(terms, s);
      RestOfSorted(terms, t);
      SortedIsUnique(terms, s[1..], t[1..]);
      assert s == [s[0]] + s[1..] && t == [t[0]] + t[1..];
    }
  }

  lemma FirstIsFirst(terms: seq<OrderTerm>, s: seq<Row>, t: seq<Row>)
    requires Sorted(terms, s) && Sorted(terms, t) && Elements(s) == Elements(t) && s != [] && t != []
    ensures s[0] == t[0]
  {
    assert s[0] in Elements(s) && t[0] in Elements(t);
    var i :| 0 <= i < |t| && t[i] == s[0];
    var j :| 0 <= j < |s| && s[j] == t[0];
    if i > 0 && j > 0 {
      ComesOneWay(terms, s[0], t[0]);
    }
  }

  lemma RestOfSorted(terms: seq<OrderTerm>, s: seq<Row>)
    requires Sorted(terms, s) && s != []
    ensures Sorted(terms, s[1..]) && Elements(s[1..]) == Elements(s) - {s[0]}
  {
    forall x | x in s[1..] ensures x != s[0] {
      var i :| 0 <= i < |s[1..]| && s[1..][i] == x;
      assert Comes(terms, s[0], s[i + 1]);
      ComesOneWay(terms, s[0], s[i + 1]);
    }
    forall x | x in s && x != s[0] ensures x in s[1..] {}
  }

  /** Reversing the order reverses the listing. */
  lemma ReversedIsSorted(terms: seq<OrderTerm>, s: seq<Row>)
    requires Sorted(terms, s)
    ensures Sorted(FlipAll(terms), Reversed(s))
  {
    var r := Reversed(s);
    forall i, j | 0 <= i < j < |r|
      ensures Comes(FlipAll(terms), r[i], r[j])
    {
      assert Comes(terms, s[|s| - 1 - j], s[|s| - 1 - i]);
      assert KeyOf(FlipAll(terms), r[i]) == KeyOf(terms, r[i]) && KeyOf(FlipAll(terms), r[j]) == KeyOf(terms, r[j]);
      FlippedIsConverse(terms, KeyOf(terms, r[i]), KeyOf(terms, r[j]));
    }
  }

  // ----- the database and the page query -----

  /** The page query over one partition: filter, number in the given order, keep the first so many. */
  datatype Query = Query(order: seq<OrderTerm>, where: Option<Pred>, limit: Option<nat>)

  function Selects(q: Query, row: Row): bool
  {
    q.where.None? || Eval(q.where.value, row) == T
  }

  function Upto(s: seq<Row>, limit: Option<nat>): (r: seq<Row>)
    ensures r <= s && (limit.None? ==> r == s) && (limit.Some? ==> |r| <= limit.value && (|r| < limit.value ==> r == s))
  {
    if limit.Some? && limit.value < |s| then s[..limit.value] else s
  }

  /** What a database holding `table` answers: the selected rows, sorted by the query's order, cut at its limit. */
  ghost predicate Answers(table: set<Row>, q: Query, out: seq<Row>)
  {
    exists full :: Sorted(q.order, full) && Elements(full) == (set r | r in table && Selects(q, r)) && out == Upto(full, q.limit)
  }

  /** `effective_order`. */
  function EffectiveOrder(terms: seq<OrderTerm>, reverse: bool): seq<OrderTerm>
  {
    if reverse then FlipAll(terms) else terms
  }

  datatype Edge = Edge(row: Row, cursor: Cursor)

  datatype Connection = Connection(edges: seq<Edge>, hasNextPage: bool, hasPreviousPage: bool, startCursor: Option<Cursor>, endCursor: Option<Cursor>)

  function Rows(edges: seq<Edge>): (r: seq<Row>)
    ensures |r| == |edges| && forall i :: 0 <= i < |edges| ==> r[i] == edges[i].row
  {
    seq(|edges|, i requires 0 <= i < |edges| => edges[i].row)
  }

  /** Each edge carries the cursor of its own row. */
  ghost predicate OwnCursors(terms: seq<OrderTerm>, edges: seq<Edge>)
  {
    forall i :: 0 <= i < |edges| ==> Encode(terms, edges[i].row) == Some(edges[i].cursor)
  }

  /** `build_connection`: the extra row is dropped, a reverse page put back into request order, cursors minted. */
  method BuildConnection(terms: seq<OrderTerm>, reverse: bool, size: nat, rows: seq<Row>, sought: bool) returns (c: Connection)
    requires forall i :: 0 <= i < |rows| ==> HasColumns(terms, rows[i])
    ensures var page := if |rows| > size then rows[..size] else rows;
            Rows(c.edges) == if reverse then Reversed(page) else page
    ensures OwnCursors(terms, c.edges)
    ensures if reverse then c.hasPreviousPage == (|rows| > size) && c.hasNextPage == sought
            else c.hasNextPage == (|rows| > size) && c.hasPreviousPage == sought
    ensures c.startCursor == (if c.edges == [] then None else Some(c.edges[0].cursor))
    ensures c.endCursor == (if c.edges == [] then None else Some(c.edges[|c.edges| - 1].cursor))
  {
    var hasExtra := |rows| > size;
    var page := if hasExtra then rows[..size] else rows;
    if reverse {
      page := Reversed(page);
    }
    var edges: seq<Edge> := [];
    for i := 0 to |page|
      invariant Rows(edges) == page[..i] && OwnCursors(terms, edges)
    {
      assert page[i] in rows by { if reverse { assert page[i] in Elements(page); } }
      assert HasColumns(terms, page[i]);
      var cursor := Encode(terms, page[i]).value;
      edges := edges + [Edge(page[i], cursor)];
    }
    assert page[..|page|] == page;
    c := Connection(edges, if reverse then sought else hasExtra, if reverse then hasExtra else sought,
                    if edges == [] then None else Some(edges[0].cursor), if edges == [] then None else Some(edges[|edges| - 1].cursor));
  }

  // ----- what a page holds -----

  /** The database: it answers every query over the partition in the request order or its reverse. */
  ghost predicate Serves(db: Query -> seq<Row>, table: set<Row>, terms: seq<OrderTerm>)
  {
    forall q: Query :: q.order == terms || q.order == FlipAll(terms) ==> Answers(table, q, db(q))
  }

  function Capped(n: nat, bound: nat): nat
  {
    if n < bound then n else bound
  }

  lemma SliceIsSorted(terms: seq<OrderTerm>, s: seq<Row>, from: nat, to: nat)
    requires Sorted(terms, s) && from <= to <= |s|
    ensures Sorted(terms, s[from..to])
  {
    var t := s[from..to];
    forall i, j | 0 <= i < j < |t| ensures Comes(terms, t[i], t[j]) { assert Comes(terms, s[from + i], s[from + j]); }
  }

  /** Where a request seeks: in front of the first row strictly behind its cursor's values (of the first row when it has no
      cursor), or, reversed, behind the last row strictly in front of them (behind the last row).  The values need not be
      those of a row that is still there. */
  ghost predicate Seeks(terms: seq<OrderTerm>, full: seq<Row>, reverse: bool, cursor: Option<Cursor>, k: nat)
    requires Sorted(terms, full)
  {
    && k <= |full|
    && match cursor
       case None => k == if reverse then |full| else 0
       case Some(c) => |c.values| == |terms| && Cuts(terms, full, reverse, c.values, k)
  }

  ghost predicate Cuts(terms: seq<OrderTerm>, full: seq<Row>, reverse: bool, values: seq<Cell>, k: nat)
    requires Sorted(terms, full) && |values| == |terms|
  {
    forall j :: 0 <= j < |full| ==>
      if reverse then j < k <==> Before(terms, KeyOf(terms, full[j]), values) else j >= k <==> Before(terms, values, KeyOf(terms, full[j]))
  }

  /** Every cursor with a value to each order column seeks somewhere. */
  lemma CutPoint(terms: seq<OrderTerm>, full: seq<Row>, reverse: bool, values: seq<Cell>) returns (k: nat)
    requires Sorted(terms, full) && |values| == |terms|
    ensures k <= |full| && Cuts(terms, full, reverse, values, k)
  {
    k := 0;
    while k < |full| && if reverse then Before(terms, KeyOf(terms, full[k]), values) else !Before(terms, values, KeyOf(terms, full[k]))
      invariant k <= |full|
      invariant forall j :: 0 <= j < k ==> if reverse then Before(terms, KeyOf(terms, full[j]), values) else !Before(terms, values, KeyOf(terms, full[j]))
    {
      k := k + 1;
    }
    forall j | k < j < |full|
      ensures if reverse then !Before(terms, KeyOf(terms, full[j]), values) else Before(terms, values, KeyOf(terms, full[j]))
    {
      assert Comes(terms, full[k], full[j]);
      if reverse {
        if Before(terms, KeyOf(terms, full[j]), values) { BeforeIsTransitive(terms, KeyOf(terms, full[k]), KeyOf(terms, full[j]), values); }
      } else {
        BeforeIsTransitive(terms, values, KeyOf(terms, full[k]), KeyOf(terms, full[j]));
      }
    }
  }

  lemma SeeksOnce(terms: seq<OrderTerm>, full: seq<Row>, reverse: bool, cursor: Option<Cursor>, k: nat, m: nat)
    requires Sorted(terms, full) && Seeks(terms, full, reverse, cursor, k) && Seeks(terms, full, reverse, cursor, m)
    ensures k == m
  {
    var atK, atM := if k < |full| then full[k..] else [], if m < |full| then full[m..] else [];
    assert (k < |full| ==> full[k] == atK[0]) && (m < |full| ==> full[m] == atM[0]);
  }

  /** The cursor of a row that is there seeks right behind it, or right in front of it. */
  lemma OwnCursorSeeks(terms: seq<OrderTerm>, full: seq<Row>, reverse: bool, at: nat, c: Cursor)
    requires Sorted(terms, full) && at < |full| && Encode(terms, full[at]) == Some(c)
    ensures Seeks(terms, full, reverse, Some(c), if reverse then at else at + 1)
  {
    forall j | 0 <= j < |full|
      ensures (j < at <==> Before(terms, KeyOf(terms, full[j]), c.values)) && (j > at <==> Before(terms, c.values, KeyOf(terms, full[j])))
    {
      if j < at { assert Comes(terms, full[j], full[at]); } else if at < j { assert Comes(terms, full[at], full[j]); }
      BeforeIsTotal(terms, KeyOf(terms, full[j]), c.values);
      BeforeIsTotal(terms, c.values, KeyOf(terms, full[j]));
    }
  }

  /** The stretch of the listing a request selects, in request order. */
  function Stretch(full: seq<Row>, reverse: bool, k: nat): seq<Row>
    requires k <= |full|
  {
    if reverse then full[..k] else full[k..]
  }

  /** The query selects the rows of the stretch and no others. */
  lemma SelectsRow(terms: seq<OrderTerm>, full: seq<Row>, reverse: bool, cursor: Option<Cursor>, k: nat, q: Query, j: nat)
    requires terms != [] && Sorted(terms, full) && Seeks(terms, full, reverse, cursor, k) && j < |full|
    requires q.where == if cursor.None? then None else Some(KeysetWhere(terms, cursor.value.values, !reverse))
    ensures Selects(q, full[j]) <==> if reverse then j < k else j >= k
  {
    if cursor.Some? {
      KeysetIsTheOrder(terms, cursor.value.values, !reverse, full[j]);
    }
  }

  lemma SelectedStretch(terms: seq<OrderTerm>, full: seq<Row>, table: set<Row>, reverse: bool, cursor: Option<Cursor>, k: nat, q: Query)
    requires terms != [] && Sorted(terms, full) && Elements(full) == table && Seeks(terms, full, reverse, cursor, k)
    requires q.where == if cursor.None? then None else Some(KeysetWhere(terms, cursor.value.values, !reverse))
    requires cursor.Some? ==> |cursor.value.values| == |terms|
    ensures (set r | r in table && Selects(q, r)) == Elements(Stretch(full, reverse, k))
  {
    forall j | 0 <= j < |full| { SelectsRow(terms, full, reverse, cursor, k, q, j); }
    StretchOf(full, reverse, k, q);
  }

  lemma StretchOf(full: seq<Row>, reverse: bool, k: nat, q: Query)
    requires k <= |full| && forall j :: 0 <= j < |full| ==> (Selects(q, full[j]) <==> if reverse then j < k else j >= k)
    ensures (set r | r in Elements(full) && Selects(q, r)) == Elements(Stretch(full, reverse, k))
  {
    var stretch := Stretch(full, reverse, k);
    forall r | r in full && Selects(q, r) ensures r in stretch {
      var j :| 0 <= j < |full| && full[j] == r;
      assert stretch[if reverse then j else j - k] == r;
    }
    forall r | r in stretch ensures r in full && Selects(q, r) {
      var j :| 0 <= j < |stretch| && stretch[j] == r;
      assert full[if reverse then j else k + j] == r;
    }
  }

  /** What the page query returns: the stretch, counted from the end when reversed, cut at the limit. */
  lemma PageRows(terms: seq<OrderTerm>, full: seq<Row>, table: set<Row>, reverse: bool, cursor: Option<Cursor>, k: nat, q: Query, out: seq<Row>)
    requires terms != [] && Sorted(terms, full) && Elements(full) == table && Seeks(terms, full, reverse, cursor, k)
    requires q.order == EffectiveOrder(terms, reverse)
    requires q.where == if cursor.None? then None else Some(KeysetWhere(terms, cursor.value.values, !reverse))
    requires cursor.Some? ==> |cursor.value.values| == |terms|
    requires Answers(table, q, out)
    ensures out == Upto(if reverse then Reversed(full[..k]) else full[k..], q.limit)
  {
    var listing :| Sorted(q.order, listing) && Elements(listing) == (set r | r in table && Selects(q, r)) && out == Upto(listing, q.limit);
    SelectedStretch(terms, full, table, reverse, cursor, k, q);
    if reverse {
      SliceIsSorted(terms, full, 0, k);
      ReversedIsSorted(terms, full[..k]);
      SortedIsUnique(q.order, listing, Reversed(full[..k]));
    } else {
      SliceIsSorted(terms, full, k, |full|);
      SortedIsUnique(q.order, listing, full[k..]);
    }
  }

  /** The page a request gets at `k`: the next rows behind it, or the last rows in front of it, in request order; and the
      flag of the side it pages towards says exactly whether rows remain there. */
  ghost predicate IsPage(terms: seq<OrderTerm>, full: seq<Row>, reverse: bool, k: nat, size: nat, c: Connection)
    requires k <= |full|
  {
    && OwnCursors(terms, c.edges)
    && (if reverse then Rows(c.edges) == full[k - Capped(size, k)..k] && (c.hasPreviousPage <==> size < k)
        else Rows(c.edges) == full[k..k + Capped(size, |full| - k)] && (c.hasNextPage <==> k + size < |full|))
    && c.startCursor == (if c.edges == [] then None else Some(c.edges[0].cursor))
    && c.endCursor == (if c.edges == [] then None else Some(c.edges[|c.edges| - 1].cursor))
  }

  /** Whether the flag of the other side, where the request came from, says the same of the rows there. */
  ghost predicate CameFromIsExact(full: seq<Row>, reverse: bool, k: nat, c: Connection)
  {
    if reverse then c.hasNextPage <==> k < |full| else c.hasPreviousPage <==> k > 0
  }

  lemma LastOfReversed(s: seq<Row>, n: nat)
    requires n <= |s|
    ensures Reversed(Reversed(s)[..n]) == s[|s| - n..]
  {
  }

  /** The seek predicate of a request, and where it cuts the listing; None when its cursor was minted for another order. */
  method SeekPredicate(ghost full: seq<Row>, terms: seq<OrderTerm>, reverse: bool, cursor: Option<Cursor>) returns (where: Option<Option<Pred>>, ghost k: nat)
    requires terms != [] && Sorted(terms, full)
    ensures where.None? <==> cursor.Some? && Decode(cursor.value, terms).None?
    ensures where.Some? ==> Seeks(terms, full, reverse, cursor, k)
    ensures where.Some? ==> where.value == if cursor.None? then None else Some(KeysetWhere(terms, cursor.value.values, !reverse))
  {
    k := if reverse then |full| else 0;
    if cursor.None? {
      return Some(None), k;
    }
    var values := Decode(cursor.value, terms);
    if values.None? {
      return None, k;
    }
    k := CutPoint(terms, full, reverse, values.value);
    where := Some(Some(KeysetWhere(terms, values.value, !reverse)));
  }

  /** The page at the place found. */
  method PageAt(db: Query -> seq<Row>, ghost table: set<Row>, ghost full: seq<Row>, terms: seq<OrderTerm>, reverse: bool, cursor: Option<Cursor>,
                where: Option<Pred>, size: nat, ghost k: nat) returns (c: Connection)
    requires terms != [] && Serves(db, table, terms) && Sorted(terms, full) && Elements(full) == table && Seeks(terms, full, reverse, cursor, k)
    requires where == if cursor.None? then None else Some(KeysetWhere(terms, cursor.value.values, !reverse))
    ensures IsPage(terms, full, reverse, k, size, c)
    ensures (if reverse then c.hasNextPage else c.hasPreviousPage) == cursor.Some?
  {
    var q := Query(EffectiveOrder(terms, reverse), where, Some(size + 1));
    var rows := db(q);
    PageRows(terms, full, table, reverse, cursor, k, q, rows);
    c := BuildConnection(terms, reverse, size, rows, cursor.Some?);
    PageIsRight(full, reverse, k, size, rows);
  }

  /** One page request; None when its cursor was minted for another order.  The cursor's row may be gone: the page is the one
      at the place its values have in the order.  The flag of the side the request came from says only that it had a
      cursor, which is exact as long as a row is left there -- such as the cursor's own. */
  method FetchPage(db: Query -> seq<Row>, ghost table: set<Row>, ghost full: seq<Row>,
                   terms: seq<OrderTerm>, reverse: bool, cursor: Option<Cursor>, size: nat) returns (c: Option<Connection>, ghost k: nat)
    requires terms != [] && Serves(db, table, terms) && Sorted(terms, full) && Elements(full) == table
    ensures c.None? <==> cursor.Some? && Decode(cursor.value, terms).None?
    ensures cursor.Some? ==> RefusedElsewhere(cursor.value, terms, c.None?)
    ensures c.Some? ==> Seeks(terms, full, reverse, cursor, k) && IsPage(terms, full, reverse, k, size, c.value)
    ensures c.Some? ==> (if reverse then c.value.hasNextPage else c.value.hasPreviousPage) == cursor.Some?
    ensures c.Some? ==> (CameFromIsExact(full, reverse, k, c.value) <==> (cursor.Some? ==> if reverse then k < |full| else k > 0))
    ensures c.Some? && cursor.Some? ==> forall row :: row in table && Encode(terms, row) == cursor ==> CameFromIsExact(full, reverse, k, c.value)
  {
    var where;
    where, k := SeekPredicate(full, terms, reverse, cursor);
    if cursor.Some? { MintedElsewhere(cursor.value, terms); }
    if where.None? {
      return None, k;
    }
    var page := PageAt(db, table, full, terms, reverse, cursor, where.value, size, k);
    if cursor.Some? { OwnRowIsLeft(terms, full, reverse, cursor.value, k); }
    c := Some(page);
  }

  /** Whatever order it was minted for, the cursor is refused exactly under an order that differs from it in its length or, at
      some position, in the column, the direction or the side of the NULLs. */
  ghost predicate RefusedElsewhere(c: Cursor, terms: seq<OrderTerm>, refused: bool)
  {
    forall minted, row :: HasColumns(minted, row) && Encode(minted, row) == Some(c) ==> (refused <==> !SameOrder(minted, terms))
  }

  lemma MintedElsewhere(c: Cursor, terms: seq<OrderTerm>)
    ensures RefusedElsewhere(c, terms, Decode(c, terms).None?)
  {
    forall minted, row | HasColumns(minted, row) && Encode(minted, row) == Some(c)
      ensures Decode(c, terms).None? <==> !SameOrder(minted, terms)
    {
      CursorRoundTrip(minted, row, terms);
    }
  }

  lemma OwnRowIsLeft(terms: seq<OrderTerm>, full: seq<Row>, reverse: bool, c: Cursor, k: nat)
    requires Sorted(terms, full) && Seeks(terms, full, reverse, Some(c), k)
    ensures forall row :: row in full && Encode(terms, row) == Some(c) ==> if reverse then k < |full| else k > 0
  {
    forall row | row in full && Encode(terms, row) == Some(c) ensures if reverse then k < |full| else k > 0 {
      var at :| 0 <= at < |full| && full[at] == row;
      OwnCursorSeeks(terms, full, reverse, at, c);
      SeeksOnce(terms, full, reverse, Some(c), k, if reverse then at else at + 1);
    }
  }

  lemma PageIsRight(full: seq<Row>, reverse: bool, k: nat, size: nat, rows: seq<Row>)
    requires k <= |full| && rows == Upto(if reverse then Reversed(full[..k]) else full[k..], Some(size + 1))
    ensures |rows| > size <==> if reverse then size < k else k + size < |full|
    ensures var page := if |rows| > size then rows[..size] else rows;
            (if reverse then Reversed(page) else page) == if reverse then full[k - Capped(size, k)..k] else full[k..k + Capped(size, |full| - k)]
  {
    var page := if |rows| > size then rows[..size] else rows;
    if reverse {
      var n := Capped(size, k);
      assert page == Reversed(full[..k])[..n];
      LastOfReversed(full[..k], n);
      assert full[..k][k - n..] == full[k - n..k];
    }
  }

  // ----- following cursors -----

  /** The end cursor of a full page seeks right behind it, the start cursor right in front of it. */
  lemma NextSeeks(terms: seq<OrderTerm>, full: seq<Row>, reverse: bool, k: nat, size: nat, c: Connection)
    requires Sorted(terms, full) && k <= |full| && size > 0 && IsPage(terms, full, reverse, k, size, c)
    ensures !reverse && c.hasNextPage ==> c.endCursor.Some? && Seeks(terms, full, false, c.endCursor, k + size) && Decode(c.endCursor.value, terms).Some?
    ensures reverse && c.hasPreviousPage ==> c.startCursor.Some? && Seeks(terms, full, true, c.startCursor, k - size) && Decode(c.startCursor.value, terms).Some?
  {
    if !reverse && c.hasNextPage { EndSeeks(terms, full, k, size, c); }
    if reverse && c.hasPreviousPage { StartSeeks(terms, full, k, size, c); }
  }

  lemma EndSeeks(terms: seq<OrderTerm>, full: seq<Row>, k: nat, size: nat, c: Connection)
    requires Sorted(terms, full) && k <= |full| && size > 0 && IsPage(terms, full, false, k, size, c) && c.hasNextPage
    ensures c.endCursor.Some? && Seeks(terms, full, false, c.endCursor, k + size) && Decode(c.endCursor.value, terms).Some?
  {
    assert |Rows(c.edges)| == size == |c.edges|;
    var last := c.edges[size - 1];
    assert last.row == Rows(c.edges)[size - 1] == full[k + size - 1];
    CursorIsOwn(terms, full, k + size - 1, last);
    OwnCursorSeeks(terms, full, false, k + size - 1, last.cursor);
  }

  lemma StartSeeks(terms: seq<OrderTerm>, full: seq<Row>, k: nat, size: nat, c: Connection)
    requires Sorted(terms, full) && k <= |full| && size > 0 && IsPage(terms, full, true, k, size, c) && c.hasPreviousPage
    ensures c.startCursor.Some? && Seeks(terms, full, true, c.startCursor, k - size) && Decode(c.startCursor.value, terms).Some?
  {
    assert |Rows(c.edges)| == size == |c.edges|;
    assert c.edges[0].row == Rows(c.edges)[0] == full[k - size];
    CursorIsOwn(terms, full, k - size, c.edges[0]);
    OwnCursorSeeks(terms, full, true, k - size, c.edges[0].cursor);
  }

  lemma CursorIsOwn(terms: seq<OrderTerm>, full: seq<Row>, at: nat, e: Edge)
    requires Sorted(terms, full) && at < |full| && e.row == full[at] && Encode(terms, e.row) == Some(e.cursor)
    ensures Decode(e.cursor, terms).Some?
  {
    CursorRoundTrip(terms, e.row, terms);
  }

  /** Where the next request stands after a page at `k`, if there is one to make. */
  ghost predicate Continues(terms: seq<OrderTerm>, full: seq<Row>, reverse: bool, cursor: Option<Cursor>, k: nat)
    requires Sorted(terms, full)
  {
    Seeks(terms, full, reverse, cursor, k) && (cursor.Some? ==> Decode(cursor.value, terms).Some?)
  }

  /** One page forward: the next rows, and a cursor that continues behind them exactly when rows remain. */
  method PageForward(db: Query -> seq<Row>, ghost table: set<Row>, ghost full: seq<Row>, ghost k: nat, terms: seq<OrderTerm>, cursor: Option<Cursor>,
                     size: nat) returns (rows: seq<Row>, more: bool, next: Option<Cursor>, ghost k': nat)
    requires terms != [] && size > 0 && Serves(db, table, terms) && Sorted(terms, full) && Elements(full) == table
    requires k <= |full| && Continues(terms, full, false, cursor, k)
    ensures k <= k' <= |full| && rows == full[k..k'] && (more <==> k' < |full|)
    ensures more ==> k < k' && Continues(terms, full, false, next, k')
  {
    var page;
    ghost var at;
    page, at := FetchPage(db, table, full, terms, false, cursor, size);
    SeeksOnce(terms, full, false, cursor, k, at);
    NextSeeks(terms, full, false, k, size, page.value);
    k' := k + Capped(size, |full| - k);
    rows, more, next := Rows(page.value.edges), page.value.hasNextPage, page.value.endCursor;
  }

  /** Following end cursors visits every row exactly once, in order, whatever the page size. */
  method WalkForward(db: Query -> seq<Row>, ghost table: set<Row>, ghost full: seq<Row>, terms: seq<OrderTerm>, size: nat) returns (visited: seq<Row>)
    requires terms != [] && size > 0 && Serves(db, table, terms) && Sorted(terms, full) && Elements(full) == table
    ensures visited == full
  {
    visited := [];
    var cursor: Option<Cursor> := None;
    var more := true;
    ghost var k: nat := 0;
    while more
      invariant k <= |full| && visited == full[..k]
      invariant if more then Continues(terms, full, false, cursor, k) else k == |full|
      decreases |full| - k, more
    {
      ghost var k';
      var rows;
      rows, more, cursor, k' := PageForward(db, table, full, k, terms, cursor, size);
      OneStretchMore(full, 0, k, k');
      visited, k := visited + rows, k';
    }
    assert full[..|full|] == full;
  }

  lemma OneStretchMore(full: seq<Row>, a: nat, b: nat, c: nat)
    requires a <= b <= c <= |full|
    ensures full[a..b] + full[b..c] == full[a..c]
  {
  }

  lemma BackTo(terms: seq<OrderTerm>, full: seq<Row>, k: nat, size: nat, c: Connection) returns (k': nat)
    requires Sorted(terms, full) && k <= |full| && size > 0 && IsPage(terms, full, true, k, size, c)
    ensures k' <= k && Rows(c.edges) == full[k'..k] && (c.hasPreviousPage <==> 0 < k')
    ensures c.hasPreviousPage ==> k' < k && Continues(terms, full, true, c.startCursor, k')
  {
    NextSeeks(terms, full, true, k, size, c);
    k' := k - Capped(size, k);
  }

  /** One page backward: the last rows in front of `k`, in request order. */
  method PageBackward(db: Query -> seq<Row>, ghost table: set<Row>, ghost full: seq<Row>, ghost k: nat, terms: seq<OrderTerm>, cursor: Option<Cursor>,
                      size: nat) returns (rows: seq<Row>, more: bool, next: Option<Cursor>, ghost k': nat)
    requires terms != [] && size > 0 && Serves(db, table, terms) && Sorted(terms, full) && Elements(full) == table
    requires k <= |full| && Continues(terms, full, true, cursor, k)
    ensures k' <= k && rows == full[k'..k] && (more <==> 0 < k')
    ensures more ==> k' < k && Continues(terms, full, true, next, k')
  {
    var page;
    ghost var at;
    page, at := FetchPage(db, table, full, terms, true, cursor, size);
    SeeksOnce(terms, full, true, cursor, k, at);
    rows, more, next := Rows(page.value.edges), page.value.hasPreviousPage, page.value.startCursor;
    k' := BackTo(terms, full, k, size, page.value);
  }

  /** Following start cursors from the end does the same from the other side, each page in request order. */
  method WalkBackward(db: Query -> seq<Row>, ghost table: set<Row>, ghost full: seq<Row>, terms: seq<OrderTerm>, size: nat) returns (visited: seq<Row>)
    requires terms != [] && size > 0 && Serves(db, table, terms) && Sorted(terms, full) && Elements(full) == table
    ensures visited == full
  {
    visited := [];
    var cursor: Option<Cursor> := None;
    var more := true;
    ghost var k: nat := |full|;
    while more
      invariant k <= |full| && visited == full[k..]
      invariant if more then Continues(terms, full, true, cursor, k) else k == 0
      decreases k, more
    {
      ghost var k';
      var rows;
      rows, more, cursor, k' := PageBackward(db, table, full, k, terms, cursor, size);
      OneStretchMore(full, k', k, |full|);
      visited, k := rows + visited, k';
    }
  }
}
