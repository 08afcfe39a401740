/** Keyset cursors: the recursive SQL predicate that selects the rows behind a cursor, under three-valued logic. */
module Keyset {
  import opened Wrappers

  // ----- orders -----

  datatype Nulls = First | Last

  datatype OrderTerm = OrderTerm(column: string, descending: bool, nulls: Option<Nulls>)

  /** A column's value in a row; None is SQL's NULL. */
  type Cell = Option<int>

  type Row = map<string, Cell>

  ghost predicate HasColumns(terms: seq<OrderTerm>, row: Row)
  {
    forall i :: 0 <= i < |terms| ==> terms[i].column in row
  }

  /** The explicit placement, or the database's default for the direction. */
  function EffectiveNulls(t: OrderTerm): Nulls
  {
    match t.nulls
    case Some(n) => n
    case None => if t.descending then First else Last
  }

  function FlipNulls(t: OrderTerm): Nulls
  {
    if EffectiveNulls(t) == First then Last else First
  }

  function Flip(t: OrderTerm): OrderTerm
  {
    OrderTerm(t.column, !t.descending, Some(FlipNulls(t)))
  }

  function FlipAll(terms: seq<OrderTerm>): (r: seq<OrderTerm>)
    ensures |r| == |terms| && forall i :: 0 <= i < |terms| ==> r[i] == Flip(terms[i])
  {
    seq(|terms|, i requires 0 <= i < |terms| => Flip(terms[i]))
  }

  // ----- what ORDER BY means -----

  /** Cell `a` comes strictly before cell `b` under the term. */
  predicate CellBefore(t: OrderTerm, a: Cell, b: Cell)
  {
    if a.None? then b.Some? && EffectiveNulls(t) == First
    else if b.None? then EffectiveNulls(t) == Last
    else if t.descending then a.value > b.value else a.value < b.value
  }

  /** The tuple `a` comes strictly before `b`, first difference deciding. */
  ghost predicate Before(terms: seq<OrderTerm>, a: seq<Cell>, b: seq<Cell>)
    requires |a| == |b| == |terms|
  {
    exists k :: 0 <= k < |terms| && FirstDifference(terms, a, b, k)
  }

  ghost predicate FirstDifference(terms: seq<OrderTerm>, a: seq<Cell>, b: seq<Cell>, k: nat)
    requires |a| == |b| == |terms| && k < |terms|
  {
    (forall j :: 0 <= j < k ==> a[j] == b[j]) && CellBefore(terms[k], a[k], b[k])
  }

  function KeyOf(terms: seq<OrderTerm>, row: Row): (r: seq<Cell>)
    requires HasColumns(terms, row)
    ensures |r| == |terms| && forall i :: 0 <= i < |terms| ==> r[i] == row[terms[i].column]
  {
    seq(|terms|, i requires 0 <= i < |terms| => row[terms[i].column])
  }

  /** NULLs lead where they are put first, and in a descending order that does not say. */
  predicate NullsLead(t: OrderTerm)
  {
    t.nulls == Some(First) || (t.nulls.None? && t.descending)
  }

  /** Values compare by the direction alone; NULLs lead or trail them, ascending last and descending first unless placed; and
      nothing comes before itself. */
  lemma OrderOfCells(t: OrderTerm, x: int, y: int)
    ensures CellBefore(t, Some(x), Some(y)) <==> if t.descending then y < x else x < y
    ensures CellBefore(t, None, Some(x)) <==> NullsLead(t)
    ensures CellBefore(t, Some(x), None) <==> !NullsLead(t)
    ensures !CellBefore(t, None, None)
    ensures t.nulls.None? ==> (CellBefore(t, None, Some(x)) <==> t.descending)
  {
  }

  /** Row `a` comes strictly before row `b`. */
  ghost predicate Comes(terms: seq<OrderTerm>, a: Row, b: Row)
  {
    HasColumns(terms, a) && HasColumns(terms, b) && Before(terms, KeyOf(terms, a), KeyOf(terms, b))
  }

  lemma FlippedCells(t: OrderTerm, a: Cell, b: Cell)
    ensures CellBefore(Flip(t), a, b) <==> CellBefore(t, b, a)
  {
  }

  /** The flipped order is the exact converse. */
  lemma FlippedIsConverse(terms: seq<OrderTerm>, a: seq<Cell>, b: seq<Cell>)
    requires |a| == |b| == |terms|
    ensures Before(FlipAll(terms), a, b) <==> Before(terms, b, a)
  {
    forall k | 0 <= k < |terms|
      ensures FirstDifference(FlipAll(terms), a, b, k) <==> FirstDifference(terms, b, a, k)
    {
      FlippedCells(terms[k], a[k], b[k]);
    }
    if Before(terms, b, a) {
      var k :| 0 <= k < |terms| && FirstDifference(terms, b, a, k);
      assert FirstDifference(FlipAll(terms), a, b, k);
    }
  }

  lemma BeforeIsAsymmetric(terms: seq<OrderTerm>, a: seq<Cell>, b: seq<Cell>)
    requires |a| == |b| == |terms| && Before(terms, a, b)
    ensures !Before(terms, b, a)
  {
    var k :| 0 <= k < |terms| && FirstDifference(terms, a, b, k);
    forall m | 0 <= m < |terms|
      ensures !FirstDifference(terms, b, a, m)
    {
      if m < k {
        assert a[m] == b[m];
      }
    }
  }

  lemma BeforeIsTransitive(terms: seq<OrderTerm>, a: seq<Cell>, b: seq<Cell>, c: seq<Cell>)
    requires |a| == |b| == |c| == |terms| && Before(terms, a, b) && Before(terms, b, c)
    ensures Before(terms, a, c)
  {
    var k :| 0 <= k < |terms| && FirstDifference(terms, a, b, k);
    var m :| 0 <= m < |terms| && FirstDifference(terms, b, c, m);
    assert FirstDifference(terms, a, c, if k < m then k else m);
  }

  /** Of two tuples exactly one comes first, or they tie on every column. */
  lemma BeforeIsTotal(terms: seq<OrderTerm>, a: seq<Cell>, b: seq<Cell>)
    requires |a| == |b| == |terms|
    ensures Before(terms, a, b) ==> !Before(terms, b, a)
    ensures Before(terms, a, b) || Before(terms, b, a) <==> a != b
  {
    if Before(terms, a, b) {
      BeforeIsAsymmetric(terms, a, b);
    }
    if a != b {
      var k := FirstUnequal(a, b, 0);
      assert FirstDifference(terms, a, b, k) || FirstDifference(terms, b, a, k);
    }
  }

  lemma {:induction false} FirstUnequal(a: seq<Cell>, b: seq<Cell>, from: nat) returns (k: nat)
    requires |a| == |b| && a != b && from <= |a| && forall j :: 0 <= j < from ==> a[j] == b[j]
    ensures k < |a| && a[k] != b[k] && forall j :: 0 <= j < k ==> a[j] == b[j]
    decreases |a| - from
  {
    assert a[..from] == b[..from] && a[..|a|] == a && b[..|b|] == b;
    if a[from] != b[from] {
      k := from;
    } else {
      k := FirstUnequal(a, b, from + 1);
    }
  }

  // ----- predicates under three-valued logic -----

  datatype Truth = T | F | U

  datatype Pred =
    | IsNull(column: string)
    | IsNotNull(column: string)
    | Greater(column: string, bound: Cell)
    | Less(column: string, bound: Cell)
    | NotItself(column: string)
    | NotDistinct(column: string, bound: Cell)
    | Or(left: Pred, right: Pred)
    | And(left: Pred, right: Pred)

  function Known(b: bool): Truth
  {
    if b then T else F
  }

  function Either(a: Truth, b: Truth): Truth
  {
    if a == T || b == T then T else if a == F && b == F then F else U
  }

  function Both(a: Truth, b: Truth): Truth
  {
    if a == F || b == F then F else if a == T && b == T then T else U
  }

  function CellOf(row: Row, column: string): Cell
  {
    if column in row then row[column] else None
  }

  function Eval(p: Pred, row: Row): Truth
  {
    match p
    case IsNull(c) => Known(CellOf(row, c).None?)
    case IsNotNull(c) => Known(CellOf(row, c).Some?)
    case Greater(c, bound) => if CellOf(row, c).None? || bound.None? then U else Known(CellOf(row, c).value > bound.value)
    case Less(c, bound) => if CellOf(row, c).None? || bound.None? then U else Known(CellOf(row, c).value < bound.value)
    case NotItself(c) => if CellOf(row, c).None? then U else F
    case NotDistinct(c, bound) => Known(CellOf(row, c) == bound)
    case Or(l, r) => Either(Eval(l, row), Eval(r, row))
    case And(l, r) => Both(Eval(l, row), Eval(r, row))
  }

  /** `column_after`. */
  function ColumnAfter(t: OrderTerm, value: Cell): Pred
  {
    var c := t.column;
    if !t.descending && EffectiveNulls(t) == Last then
      if value.None? then NotItself(c) else Or(IsNull(c), Greater(c, value))
    else if !t.descending then
      if value.None? then IsNotNull(c) else And(IsNotNull(c), Greater(c, value))
    else if EffectiveNulls(t) == First then
      if value.None? then IsNotNull(c) else And(IsNotNull(c), Less(c, value))
    else
      if value.None? then NotItself(c) else Or(IsNull(c), Less(c, value))
  }

  /** `_recursive_after`. */
  function RecursiveAfter(terms: seq<OrderTerm>, values: seq<Cell>, index: nat): Pred
    requires index < |terms| == |values|
    decreases |terms| - index
  {
    var gt := ColumnAfter(terms[index], values[index]);
    if index == |terms| - 1 then gt
    else Or(gt, And(NotDistinct(terms[index].column, values[index]), RecursiveAfter(terms, values, index + 1)))
  }

  /** `keyset_where`. */
  function KeysetWhere(terms: seq<OrderTerm>, values: seq<Cell>, after: bool): Pred
    requires 0 < |terms| == |values|
  {
    RecursiveAfter(if after then terms else FlipAll(terms), values, 0)
  }

  /** One column's predicate is TRUE exactly on the rows whose cell comes strictly after the value. */
  lemma ColumnAfterIsTheOrder(t: OrderTerm, value: Cell, row: Row)
    requires t.column in row
    ensures Eval(ColumnAfter(t, value), row) == T <==> CellBefore(t, value, row[t.column])
  {
  }

  ghost predicate DiffersFrom(terms: seq<OrderTerm>, a: seq<Cell>, b: seq<Cell>, from: nat)
    requires |a| == |b| == |terms|
  {
    exists k :: from <= k < |terms| && (forall j :: from <= j < k ==> a[j] == b[j]) && CellBefore(terms[k], a[k], b[k])
  }

  lemma DiffersStep(terms: seq<OrderTerm>, a: seq<Cell>, b: seq<Cell>, from: nat)
    requires |a| == |b| == |terms| && from < |terms|
    ensures DiffersFrom(terms, a, b, from) <==> CellBefore(terms[from], a[from], b[from]) || (a[from] == b[from] && DiffersFrom(terms, a, b, from + 1))
  {
    if a[from] == b[from] && DiffersFrom(terms, a, b, from + 1) {
      var k :| from + 1 <= k < |terms| && (forall j :: from + 1 <= j < k ==> a[j] == b[j]) && CellBefore(terms[k], a[k], b[k]);
      assert forall j :: from <= j < k ==> a[j] == b[j];
    }
  }

  lemma {:induction false} RecursiveAfterIsTheOrder(terms: seq<OrderTerm>, values: seq<Cell>, row: Row, index: nat)
    requires index < |terms| == |values| && HasColumns(terms, row)
    ensures Eval(RecursiveAfter(terms, values, index), row) == T <==> DiffersFrom(terms, values, KeyOf(terms, row), index)
    decreases |terms| - index
  {
    ColumnAfterIsTheOrder(terms[index], values[index], row);
    assert KeyOf(terms, row)[index] == row[terms[index].column] == CellOf(row, terms[index].column);
    DiffersStep(terms, values, KeyOf(terms, row), index);
    if index < |terms| - 1 {
      RecursiveAfterIsTheOrder(terms, values, row, index + 1);
      var eq, rest := NotDistinct(terms[index].column, values[index]), RecursiveAfter(terms, values, index + 1);
      assert RecursiveAfter(terms, values, index) == Or(ColumnAfter(terms[index], values[index]), And(eq, rest));
      assert Eval(And(eq, rest), row) == Both(Eval(eq, row), Eval(rest, row));
    }
  }

  /** The keyset predicate is TRUE on a row exactly when the row comes strictly after the cursor -- before it, in the
      flipped form -- whatever the directions, the NULL placements and the NULLs. */
  lemma KeysetIsTheOrder(terms: seq<OrderTerm>, values: seq<Cell>, after: bool, row: Row)
    requires 0 < |terms| == |values| && HasColumns(terms, row)
    ensures Eval(KeysetWhere(terms, values, after), row) == T <==>
              if after then Before(terms, values, KeyOf(terms, row)) else Before(terms, KeyOf(terms, row), values)
  {
    var used := if after then terms else FlipAll(terms);
    RecursiveAfterIsTheOrder(used, values, row, 0);
    assert KeyOf(used, row) == KeyOf(terms, row);
    if Before(used, values, KeyOf(terms, row)) {
      var k :| 0 <= k < |used| && FirstDifference(used, values, KeyOf(terms, row), k);
    }
    if DiffersFrom(used, values, KeyOf(terms, row), 0) {
      var k :| 0 <= k < |used| && (forall j :: 0 <= j < k ==> values[j] == KeyOf(terms, row)[j]) && CellBefore(used[k], values[k], KeyOf(terms, row)[k]);
      assert FirstDifference(used, values, KeyOf(terms, row), k);
    }
    if !after {
      FlippedIsConverse(terms, values, KeyOf(terms, row));
    }
  }

  // ----- cursors -----

  /** What the order digest pins: each term's column, direction and effective NULL placement. */
  datatype Canonical = Canonical(column: string, descending: bool, nulls: Nulls)

  function CanonicalOf(terms: seq<OrderTerm>): (r: seq<Canonical>)
    ensures |r| == |terms|
  {
    seq(|terms|, i requires 0 <= i < |terms| => Canonical(terms[i].column, terms[i].descending, EffectiveNulls(terms[i])))
  }

  datatype Cursor = Cursor(digest: seq<Canonical>, values: seq<Cell>)

  /** `encode_keyset_cursor`; None when an order column is not in the row. */
  function Encode(terms: seq<OrderTerm>, row: Row): Option<Cursor>
  {
    if forall i :: 0 <= i < |terms| ==> terms[i].column in row then Some(Cursor(CanonicalOf(terms), KeyOf(terms, row))) else None
  }

  /** `decode_keyset_cursor`; None for a cursor of another order or with the wrong number of values. */
  function Decode(c: Cursor, terms: seq<OrderTerm>): Option<seq<Cell>>
  {
    if c.digest == CanonicalOf(terms) && |c.values| == |terms| then Some(c.values) else None
  }

  // ----- the digest in plain terms -----

  /** The same column, the same direction, NULLs on the same side. */
  predicate SameTerm(t: OrderTerm, u: OrderTerm)
  {
    t.column == u.column && t.descending == u.descending && (NullsLead(t) <==> NullsLead(u))
  }

  predicate SameOrder(terms: seq<OrderTerm>, other: seq<OrderTerm>)
  {
    |terms| == |other| && forall i :: 0 <= i < |terms| ==> SameTerm(terms[i], other[i])
  }

  lemma LeadIsFirst(t: OrderTerm)
    ensures EffectiveNulls(t) == if NullsLead(t) then First else Last
  {
  }

  /** Two orders have one digest exactly when they agree term by term. */
  lemma DigestIsExact(terms: seq<OrderTerm>, other: seq<OrderTerm>)
    ensures CanonicalOf(terms) == CanonicalOf(other) <==> SameOrder(terms, other)
  {
    if CanonicalOf(terms) == CanonicalOf(other) {
      forall i | 0 <= i < |terms| ensures SameTerm(terms[i], other[i]) { assert CanonicalOf(terms)[i] == CanonicalOf(other)[i]; }
    }
    if SameOrder(terms, other) {
      forall i | 0 <= i < |terms| ensures CanonicalOf(terms)[i] == CanonicalOf(other)[i]
      {
        assert SameTerm(terms[i], other[i]);
        LeadIsFirst(terms[i]);
        LeadIsFirst(other[i]);
      }
      assert CanonicalOf(terms) == CanonicalOf(other);
    }
  }

  /** A cursor minted for a row is accepted exactly under the orders that agree with its own term by term, and carries the
      row's own values. */
  lemma CursorRoundTrip(terms: seq<OrderTerm>, row: Row, other: seq<OrderTerm>)
    requires HasColumns(terms, row)
    ensures Encode(terms, row).Some?
    ensures var values := Decode(Encode(terms, row).value, other);
            && (values.Some? <==> SameOrder(terms, other))
            && (values.Some? ==> |values.value| == |terms| && forall i :: 0 <= i < |terms| ==> values.value[i] == row[terms[i].column])
  {
    DigestIsExact(terms, other);
  }

  lemma AgreeingTuples(terms: seq<OrderTerm>, other: seq<OrderTerm>, a: seq<Cell>, b: seq<Cell>)
    requires SameOrder(terms, other) && |a| == |b| == |terms| && Before(terms, a, b)
    ensures Before(other, a, b)
  {
    var k :| 0 <= k < |terms| && FirstDifference(terms, a, b, k);
    assert SameTerm(terms[k], other[k]);
    assert FirstDifference(other, a, b, k);
  }

  lemma AgreeingRows(terms: seq<OrderTerm>, other: seq<OrderTerm>, a: Row, b: Row)
    requires SameOrder(terms, other) && Comes(terms, a, b)
    ensures Comes(other, a, b)
  {
    forall i | 0 <= i < |other| ensures other[i].column in a && other[i].column in b && terms[i].column == other[i].column {
      assert SameTerm(terms[i], other[i]);
    }
    assert KeyOf(terms, a) == KeyOf(other, a) && KeyOf(terms, b) == KeyOf(other, b);
    AgreeingTuples(terms, other, KeyOf(terms, a), KeyOf(terms, b));
  }

  /** A cursor accepted under another order than its own is never misapplied: the two orders put all rows alike. */
  lemma SameDigestSameOrder(terms: seq<OrderTerm>, other: seq<OrderTerm>, minted: Row, a: Row, b: Row)
    requires HasColumns(terms, minted) && Decode(Encode(terms, minted).value, other).Some?
    ensures Comes(terms, a, b) <==> Comes(other, a, b)
  {
    CursorRoundTrip(terms, minted, other);
    if Comes(terms, a, b) { AgreeingRows(terms, other, a, b); }
    if Comes(other, a, b) { AgreeingRows(other, terms, a, b); }
  }
}
