/**
 * How rows are compared: for the shard merge (sync_diff_inspector/source/common/rows.go) and for the row comparison
 * (sync_diff_inspector/utils/utils.go).  The first puts NULL before everything; the second takes NULL in a quoted column
 * for the empty string, and decides first whether the rows count as the same at all.
 */
module RowOrder {
  import opened Wrappers
  import opened Keys

  /** Floats are equal within a tolerance, JSON values when they denote the same value. */
  datatype Kind = Plain | Float | Json

  /** `empty` is the collation position of the empty string, which stands in for NULL in quoted columns. */
  datatype Column = Column(kind: Kind, quoted: bool, empty: real)

  type Cell = Option<Value>

  type Row = seq<Cell>

  /** The columns of a table, and which of them are the order key. */
  datatype Layout = Layout(columns: seq<Column>, keys: seq<nat>)

  predicate KeysIn(l: Layout, keys: seq<nat>) {
    forall i :: 0 <= i < |keys| ==> keys[i] < |l.columns|
  }

  predicate LayoutOk(l: Layout) { KeysIn(l, l.keys) }

  predicate RowOk(l: Layout, r: Row) { |r| == |l.columns| }

  function Sign(a: real, b: real): int {
    if a < b then -1 else if a > b then 1 else 0
  }

  // ---------- One column ----------

  /** NULL before everything: the order of the shard merge. */
  function NullFirst(c: Column, a: Cell, b: Cell): int {
    if a.None? && b.None? then 0
    else if a.None? then -1
    else if b.None? then 1
    else Sign(a.value.rank, b.value.rank)
  }

  function Position(c: Column, a: Cell): real {
    if a.None? then c.empty else a.value.rank
  }

  /** The order of the row comparison: in a quoted column NULL counts as the empty string. */
  function KeyOrder(c: Column, a: Cell, b: Cell): int {
    if c.quoted then Sign(Position(c, a), Position(c, b)) else NullFirst(c, a, b)
  }

  function TextOf(a: Cell): string {
    if a.None? then "" else a.value.text
  }

  const TOLERANCE := 0.000001

  /** Whether two cells of a column count as the same data. */
  predicate SameCell(c: Column, a: Cell, b: Cell) {
    match c.kind
    case Plain => a == b
    case Float =>
      (a.None? && b.None?) || (a.Some? && b.Some? && -TOLERANCE <= a.value.rank - b.value.rank <= TOLERANCE)
    case Json =>
      TextOf(a) == TextOf(b) || (a.None? && b.None?) || (a.Some? && b.Some? && a.value.rank == b.value.rank)
  }

  // ---------- Rows ----------

  type CellOrder = (Column, Cell, Cell) -> int

  /** The first key column that decides. */
  function Lex(f: CellOrder, l: Layout, keys: seq<nat>, a: Row, b: Row): int
    requires RowOk(l, a) && RowOk(l, b) && KeysIn(l, keys)
  {
    if keys == [] then 0
    else
      var k := keys[0];
      var c := f(l.columns[k], a[k], b[k]);
      if c != 0 then c else Lex(f, l, keys[1..], a, b)
  }

  predicate Less(l: Layout, a: Row, b: Row)
    requires LayoutOk(l) && RowOk(l, a) && RowOk(l, b)
  {
    Lex(NullFirst, l, l.keys, a, b) < 0
  }

  function Cmp(l: Layout, a: Row, b: Row): int
    requires LayoutOk(l) && RowOk(l, a) && RowOk(l, b)
  {
    Lex(KeyOrder, l, l.keys, a, b)
  }

  predicate Same(l: Layout, a: Row, b: Row)
    requires RowOk(l, a) && RowOk(l, b)
  {
    forall i :: 0 <= i < |l.columns| ==> SameCell(l.columns[i], a[i], b[i])
  }

  /** The order of the shard heap, column after column. */
  method LessThan(l: Layout, a: Row, b: Row) returns (r: bool)
    requires LayoutOk(l) && RowOk(l, a) && RowOk(l, b)
    ensures r == Less(l, a, b)
  {
    for idx := 0 to |l.keys|
      invariant Lex(NullFirst, l, l.keys, a, b) == Lex(NullFirst, l, l.keys[idx..], a, b)
    {
      var col1, col2 := a[l.keys[idx]], b[l.keys[idx]];
      if col1.None? && col2.None? {
        continue;
      }
      if col1.None? {
        return true;
      }
      if col2.None? {
        return false;
      }
      if col1.value.rank == col2.value.rank {
        continue;
      }
      return col1.value.rank < col2.value.rank;
    }
    return false;
  }

  /** Whether two rows are the same, and if not, how their order keys compare. */
  method CompareData(l: Layout, row1: Row, row2: Row) returns (equal: bool, cmp: int)
    requires LayoutOk(l) && RowOk(l, row1) && RowOk(l, row2)
    ensures equal == Same(l, row1, row2)
    ensures cmp == if equal then 0 else Cmp(l, row1, row2)
  {
    equal, cmp := true, 0;
    for i := 0 to |l.columns|
      invariant equal && forall k :: 0 <= k < i ==> SameCell(l.columns[k], row1[k], row2[k])
    {
      var data1, data2 := row1[i], row2[i];
      if l.columns[i].kind.Float? {
        if data1.None? && data2.None? {
          continue;
        } else if data1.Some? && data2.Some? {
          var diff := data1.value.rank - data2.value.rank;
          if (if diff < 0.0 then -diff else diff) <= TOLERANCE {
            continue;
          }
        }
      } else if l.columns[i].kind.Json? {
        if TextOf(data1) == TextOf(data2) || (data1.None? && data2.None?) {
          continue;
        }
        if data1.Some? && data2.Some? && data1.value.rank == data2.value.rank {
          continue;
        }
      } else if data1 == data2 {
        continue;
      }
      equal := false;
      break;
    }
    if equal {
      return;
    }
    for i := 0 to |l.keys|
      invariant cmp == 0 && Cmp(l, row1, row2) == Lex(KeyOrder, l, l.keys[i..], row1, row2)
    {
      var k := l.keys[i];
      cmp := KeyOrder(l.columns[k], row1[k], row2[k]);
      if cmp != 0 {
        break;
      }
    }
  }

  // ---------- What counts as the same ----------

  /** Two numbers at most a millionth apart. */
  predicate Near(a: real, b: real) {
    -1.0 <= 1000000.0 * (a - b) <= 1.0
  }

  /** Two rows that agree in all columns but one count as the same by that column. */
  lemma {:induction false} SameBut(l: Layout, a: Row, b: Row, i: nat)
    requires RowOk(l, a) && RowOk(l, b) && i < |a| && forall k :: 0 <= k < |a| && k != i ==> a[k] == b[k]
    ensures l.columns[i].kind == Plain ==> (Same(l, a, b) <==> a[i] == b[i])
    ensures l.columns[i].kind == Float && a[i].Some? && b[i].Some? ==> (Same(l, a, b) <==> Near(a[i].value.rank, b[i].value.rank))
    ensures l.columns[i].kind == Float && a[i].None? ==> (Same(l, a, b) <==> b[i].None?)
    ensures l.columns[i].kind == Json && a[i].Some? && b[i].Some? ==>
              (Same(l, a, b) <==> a[i].value.text == b[i].value.text || a[i].value.rank == b[i].value.rank)
    ensures l.columns[i].kind == Json && a[i].None? ==> (Same(l, a, b) <==> b[i].None? || b[i].value.text == "")
  {
    forall k | 0 <= k < |a| && k != i
      ensures SameCell(l.columns[k], a[k], b[k])
    {
      SameSelf(l.columns[k], a[k]);
    }
    assert Same(l, a, b) <==> SameCell(l.columns[i], a[i], b[i]);
  }

  lemma {:induction false} SameSelf(c: Column, a: Cell)
    ensures SameCell(c, a, a)
  {
  }

  /** Every row is the same as itself, and it does not matter which of two rows comes first. */
  lemma {:induction false} SameSymmetric(l: Layout, a: Row, b: Row)
    requires RowOk(l, a) && RowOk(l, b)
    ensures Same(l, a, a) && (Same(l, a, b) <==> Same(l, b, a))
  {
    forall k | 0 <= k < |a|
      ensures SameCell(l.columns[k], a[k], a[k]) && (SameCell(l.columns[k], a[k], b[k]) <==> SameCell(l.columns[k], b[k], a[k]))
    {
      SameSelf(l.columns[k], a[k]);
    }
  }

  /** The cells of a row as those of another one: equal, and numbers in a float column at most a millionth apart; JSON aside. */
  predicate Agrees(l: Layout, a: Row, b: Row)
    requires RowOk(l, a) && RowOk(l, b)
  {
    forall i :: 0 <= i < |l.columns| && l.columns[i].kind != Json ==>
      && (a[i].None? <==> b[i].None?)
      && (a[i].Some? && b[i].Some? ==> if l.columns[i].kind == Plain then a[i].value == b[i].value else Near(a[i].value.rank, b[i].value.rank))
  }

  /** Rows that count as the same agree, so that NULL stands in the same columns of both. */
  lemma {:induction false} SameAgrees(l: Layout, a: Row, b: Row)
    requires RowOk(l, a) && RowOk(l, b) && Same(l, a, b)
    ensures Agrees(l, a, b)
  {
    forall i | 0 <= i < |l.columns| && l.columns[i].kind != Json
      ensures (a[i].None? <==> b[i].None?)
      ensures a[i].Some? && b[i].Some? ==> if l.columns[i].kind == Plain then a[i].value == b[i].value else Near(a[i].value.rank, b[i].value.rank)
    {
      assert SameCell(l.columns[i], a[i], b[i]);
    }
  }

  // ---------- Laws ----------

  /** A three-way comparison of cells. */
  ghost predicate ThreeWay(f: CellOrder) {
    && (forall c: Column, a: Cell, b: Cell :: -1 <= f(c, a, b) <= 1 && f(c, a, b) == -f(c, b, a))
    && (forall c: Column, a: Cell, b: Cell, d: Cell :: f(c, a, b) <= 0 && f(c, b, d) <= 0 ==> f(c, a, d) <= 0)
  }

  lemma {:induction false} BothThreeWay()
    ensures ThreeWay(NullFirst) && ThreeWay(KeyOrder)
  {
  }

  lemma {:induction false} LexAntisymmetric(f: CellOrder, l: Layout, keys: seq<nat>, a: Row, b: Row)
    requires ThreeWay(f) && RowOk(l, a) && RowOk(l, b) && KeysIn(l, keys)
    ensures -1 <= Lex(f, l, keys, a, b) <= 1 && Lex(f, l, keys, a, b) == -Lex(f, l, keys, b, a)
  {
    if keys != [] {
      var k := keys[0];
      assert f(l.columns[k], a[k], b[k]) == -f(l.columns[k], b[k], a[k]);
      LexAntisymmetric(f, l, keys[1..], a, b);
    }
  }

  lemma {:induction false} LexTransitive(f: CellOrder, l: Layout, keys: seq<nat>, a: Row, b: Row, c: Row)
    requires ThreeWay(f) && RowOk(l, a) && RowOk(l, b) && RowOk(l, c) && KeysIn(l, keys)
    requires Lex(f, l, keys, a, b) <= 0 && Lex(f, l, keys, b, c) <= 0
    ensures Lex(f, l, keys, a, c) <= 0
    ensures Lex(f, l, keys, a, b) < 0 || Lex(f, l, keys, b, c) < 0 ==> Lex(f, l, keys, a, c) < 0
  {
    if keys != [] {
      var k := keys[0];
      CellTransitive(f, l.columns[k], a[k], b[k], c[k]);
      if f(l.columns[k], a[k], b[k]) == 0 && f(l.columns[k], b[k], c[k]) == 0 {
        LexTransitive(f, l, keys[1..], a, b, c);
      }
    }
  }

  lemma {:induction false} CellTransitive(f: CellOrder, col: Column, a: Cell, b: Cell, c: Cell)
    requires ThreeWay(f) && f(col, a, b) <= 0 && f(col, b, c) <= 0
    ensures f(col, a, c) <= 0
    ensures f(col, a, b) < 0 || f(col, b, c) < 0 ==> f(col, a, c) < 0
    ensures f(col, a, b) == 0 && f(col, b, c) == 0 ==> f(col, a, c) == 0
  {
    assert f(col, c, b) == -f(col, b, c) && f(col, b, a) == -f(col, a, b) && f(col, c, a) == -f(col, a, c);
    if f(col, a, c) == 0 {
      assert f(col, c, a) <= 0;
      assert f(col, b, a) <= 0 by { assert f(col, b, c) <= 0 && f(col, c, a) <= 0; }
      assert f(col, c, b) <= 0 by { assert f(col, c, a) <= 0 && f(col, a, b) <= 0; }
    }
  }

  /** The row comparison is a total preorder. */
  lemma {:induction false} CmpPreorder(l: Layout, a: Row, b: Row, c: Row)
    requires LayoutOk(l) && RowOk(l, a) && RowOk(l, b) && RowOk(l, c)
    ensures -1 <= Cmp(l, a, b) <= 1 && Cmp(l, a, b) == -Cmp(l, b, a)
    ensures Cmp(l, a, b) <= 0 && Cmp(l, b, c) <= 0 ==> Cmp(l, a, c) <= 0
    ensures Cmp(l, a, b) <= 0 && Cmp(l, b, c) < 0 ==> Cmp(l, a, c) < 0
    ensures Cmp(l, a, b) < 0 && Cmp(l, b, c) <= 0 ==> Cmp(l, a, c) < 0
  {
    BothThreeWay();
    LexAntisymmetric(KeyOrder, l, l.keys, a, b);
    if Cmp(l, a, b) <= 0 && Cmp(l, b, c) <= 0 {
      LexTransitive(KeyOrder, l, l.keys, a, b, c);
    }
  }

  /** The two orders agree on rows with no NULL in the key. */
  predicate KeyNonNull(l: Layout, r: Row)
    requires LayoutOk(l) && RowOk(l, r)
  {
    forall i :: 0 <= i < |l.keys| ==> r[l.keys[i]].Some?
  }

  lemma {:induction false} LessIsCmp(l: Layout, keys: seq<nat>, a: Row, b: Row)
    requires RowOk(l, a) && RowOk(l, b)
    requires forall i :: 0 <= i < |keys| ==> keys[i] < |l.columns| && a[keys[i]].Some? && b[keys[i]].Some?
    ensures Lex(NullFirst, l, keys, a, b) == Lex(KeyOrder, l, keys, a, b)
  {
    if keys != [] {
      LessIsCmp(l, keys[1..], a, b);
    }
  }
}
