/**
 * Streams in order: those that the comparison's own order sorts, and those that the shard merge and the database give,
 * with NULL first (sync_diff_inspector/source/common/rows.go, sync_diff_inspector/utils/utils.go).  For the former the walk
 * is told by positions alone; the latter are among them unless a quoted key column holds NULL.
 */
module SortedStreams {
  import opened Wrappers
  import Keys
  import opened RowOrder
  import opened RowMerge
  import opened CompareRows
  import opened Turns
  import opened Repair

  predicate Ascending(l: Layout, rows: seq<Row>)
    requires LayoutOk(l) && RowsOk(l, rows)
  {
    forall i, j :: 0 <= i < j < |rows| ==> Cmp(l, rows[i], rows[j]) <= 0
  }

  predicate Strict(l: Layout, rows: seq<Row>)
    requires LayoutOk(l) && RowsOk(l, rows)
  {
    forall i, j :: 0 <= i < j < |rows| ==> Cmp(l, rows[i], rows[j]) < 0
  }

  // ---------- The order of the streams ----------

  /** No quoted key column of the row is NULL. */
  predicate QuotedThere(l: Layout, r: Row)
    requires LayoutOk(l) && RowOk(l, r)
  {
    forall i :: 0 <= i < |l.keys| && l.columns[l.keys[i]].quoted ==> r[l.keys[i]].Some?
  }

  lemma {:induction false} OrdersAgree(l: Layout, keys: seq<nat>, a: Row, b: Row)
    requires RowOk(l, a) && RowOk(l, b) && KeysIn(l, keys)
    requires forall i :: 0 <= i < |keys| && l.columns[keys[i]].quoted ==> a[keys[i]].Some? && b[keys[i]].Some?
    ensures Lex(NullFirst, l, keys, a, b) == Lex(KeyOrder, l, keys, a, b)
  {
    if keys != [] {
      OrdersAgree(l, keys[1..], a, b);
    }
  }

  /** With no NULL in a quoted key column, the order of the merge is the comparison's order. */
  lemma {:induction false} SortedIsAscending(l: Layout, rows: seq<Row>)
    requires LayoutOk(l) && RowsOk(l, rows) && forall i :: 0 <= i < |rows| ==> QuotedThere(l, rows[i])
    ensures SortedRows(l, rows) <==> Ascending(l, rows)
  {
    forall i, j | 0 <= i < j < |rows|
      ensures !Less(l, rows[j], rows[i]) <==> Cmp(l, rows[i], rows[j]) <= 0
    {
      OrdersAgree(l, l.keys, rows[j], rows[i]);
      CmpPreorder(l, rows[i], rows[j], rows[j]);
    }
  }

  /** No value of the key column is before the empty string. */
  predicate EmptyFirst(l: Layout, r: Row)
    requires LayoutOk(l) && RowOk(l, r)
  {
    forall i :: 0 <= i < |l.keys| && r[l.keys[i]].Some? ==> l.columns[l.keys[i]].empty <= r[l.keys[i]].value.rank
  }

  /** So it is with a single key column, NULL or not. */
  lemma {:induction false} SingleIsAscending(l: Layout, rows: seq<Row>)
    requires LayoutOk(l) && RowsOk(l, rows) && |l.keys| == 1 && forall i :: 0 <= i < |rows| ==> EmptyFirst(l, rows[i])
    requires SortedRows(l, rows)
    ensures Ascending(l, rows)
  {
    forall i, j | 0 <= i < j < |rows|
      ensures Cmp(l, rows[i], rows[j]) <= 0
    {
      var k := l.keys[0];
      assert l.keys[1..] == [];
      assert Lex(NullFirst, l, l.keys[1..], rows[j], rows[i]) == 0 && Lex(KeyOrder, l, l.keys[1..], rows[i], rows[j]) == 0;
      assert NullFirst(l.columns[k], rows[j][k], rows[i][k]) >= 0;
    }
  }

  // ---------- Rows at the same place ----------

  /** How many rows of a list are at the position of a row in the order. */
  function Count(l: Layout, rows: seq<Row>, r: Row): nat
    requires LayoutOk(l) && RowsOk(l, rows) && RowOk(l, r)
  {
    if rows == [] then 0 else (if Cmp(l, rows[0], r) == 0 then 1 else 0) + Count(l, rows[1..], r)
  }

  /** The number of rows at the same position of the order before the `i`-th. */
  function Offset(l: Layout, rows: seq<Row>, i: nat): nat
    requires LayoutOk(l) && RowsOk(l, rows) && i < |rows|
  {
    Count(l, rows[..i], rows[i])
  }

  /** An upstream and a downstream row at the same position of the order and at the same offset there. */
  predicate Opposite(l: Layout, up: seq<Row>, down: seq<Row>, i: nat, j: nat)
    requires Rows(l, up, down) && i < |up| && j < |down|
  {
    Cmp(l, up[i], down[j]) == 0 && Offset(l, up, i) == Offset(l, down, j)
  }

  /** Opposite rows are the same. */
  predicate Aligned(l: Layout, up: seq<Row>, down: seq<Row>)
    requires Rows(l, up, down)
  {
    forall i, j :: 0 <= i < |up| && 0 <= j < |down| && Opposite(l, up, down, i, j) ==> Same(l, up[i], down[j])
  }

  lemma {:induction false} OffsetShift(l: Layout, rows: seq<Row>, i: nat)
    requires LayoutOk(l) && RowsOk(l, rows) && 0 < i < |rows|
    ensures Offset(l, rows, i) == (if Cmp(l, rows[0], rows[i]) == 0 then 1 else 0) + Offset(l, rows[1..], i - 1)
  {
    assert rows[..i][1..] == rows[1..][..i - 1];
  }

  /** Behind two heads at the same position, rows are opposite as they were. */
  lemma {:induction false} OppositeBoth(l: Layout, up: seq<Row>, down: seq<Row>, i: nat, j: nat)
    requires Rows(l, up, down) && i < |up| && j < |down| && Cmp(l, up[0], down[0]) == 0
    ensures i > 0 && j > 0 ==> (Opposite(l, up, down, i, j) <==> Opposite(l, up[1..], down[1..], i - 1, j - 1))
    ensures i == 0 || j == 0 ==> (Opposite(l, up, down, i, j) <==> i == 0 && j == 0)
  {
    CmpPreorder(l, up[0], down[0], up[i]);
    CmpPreorder(l, down[0], up[0], down[j]);
    if i > 0 {
      OffsetShift(l, up, i);
    }
    if j > 0 {
      OffsetShift(l, down, j);
    }
    if Cmp(l, up[i], down[j]) == 0 {
      CmpAlike(l, up[i], down[j], up[0]);
      CmpAlike(l, up[0], down[0], down[j]);
      CmpPreorder(l, up[0], down[j], down[j]);
      CmpPreorder(l, up[0], up[i], up[i]);
      CmpPreorder(l, down[0], down[j], down[j]);
    }
  }

  /** A row before all rows of the other stream is opposite none, and does not count for those that are. */
  lemma {:induction false} OppositeUp(l: Layout, up: seq<Row>, down: seq<Row>, i: nat, j: nat)
    requires Rows(l, up, down) && Ascending(l, down) && i < |up| && j < |down| && Cmp(l, up[0], down[0]) < 0
    ensures Opposite(l, up, down, i, j) <==> i > 0 && Opposite(l, up[1..], down, i - 1, j)
  {
    CmpPreorder(l, up[0], down[0], down[j]);
    assert Cmp(l, up[0], down[j]) < 0;
    if i > 0 {
      OffsetShift(l, up, i);
      CmpPreorder(l, up[i], down[j], down[j]);
      CmpPreorder(l, up[0], down[j], up[i]);
    }
  }

  lemma {:induction false} OppositeDown(l: Layout, up: seq<Row>, down: seq<Row>, i: nat, j: nat)
    requires Rows(l, up, down) && Ascending(l, up) && i < |up| && j < |down| && Cmp(l, up[0], down[0]) > 0
    ensures Opposite(l, up, down, i, j) <==> j > 0 && Opposite(l, up, down[1..], i, j - 1)
  {
    CmpPreorder(l, down[0], up[0], up[i]);
    CmpPreorder(l, up[0], down[0], down[0]);
    assert Cmp(l, down[0], up[i]) < 0;
    CmpPreorder(l, up[i], down[0], down[0]);
    if j > 0 {
      OffsetShift(l, down, j);
      CmpPreorder(l, down[0], up[i], down[j]);
    }
  }

  /** In ascending streams the walk gets to two rows of one position exactly if they are opposite. */
  lemma {:induction false} AtOpposite(l: Layout, up: seq<Row>, down: seq<Row>, i: nat, j: nat)
    requires Rows(l, up, down) && ExactKeys(l) && Ascending(l, up) && Ascending(l, down) && i < |up| && j < |down|
    ensures At(l, up, down, i, j, Match) <==> Opposite(l, up, down, i, j) && Same(l, up[i], down[j])
    ensures At(l, up, down, i, j, Swap) <==> Opposite(l, up, down, i, j) && !Same(l, up[i], down[j])
    decreases |up| + |down|
  {
    if i == 0 && j == 0 {
      HeadOpposite(l, up, down);
    } else {
      AtRest(l, up, down, i, j, Match);
      AtRest(l, up, down, i, j, Swap);
      RestOpposite(l, up, down, i, j, TurnOf(l, up, down));
      RestShorter(l, up, down);
      var turn := TurnOf(l, up, down);
      if (turn == Drop || i > 0) && (turn == Add || j > 0) {
        AtOpposite(l, RestUp(l, up, down), RestDown(l, up, down), if turn == Drop then i else i - 1, if turn == Add then j else j - 1);
      }
    }
  }

  lemma {:induction false} HeadOpposite(l: Layout, up: seq<Row>, down: seq<Row>)
    requires Rows(l, up, down) && ExactKeys(l) && up != [] && down != []
    ensures At(l, up, down, 0, 0, Match) <==> Opposite(l, up, down, 0, 0) && Same(l, up[0], down[0])
    ensures At(l, up, down, 0, 0, Swap) <==> Opposite(l, up, down, 0, 0) && !Same(l, up[0], down[0])
  {
    AtHead(l, up, down, 0, 0, Match);
    AtHead(l, up, down, 0, 0, Swap);
    if Same(l, up[0], down[0]) {
      SameKeepsKey(l, up[0], down[0]);
    }
  }

  /** Behind the first turn rows are opposite as they were. */
  lemma {:induction false} RestOpposite(l: Layout, up: seq<Row>, down: seq<Row>, i: nat, j: nat, turn: Turn)
    requires Rows(l, up, down) && ExactKeys(l) && Ascending(l, up) && Ascending(l, down) && i < |up| && j < |down| && (i > 0 || j > 0)
    requires turn == TurnOf(l, up, down)
    ensures Opposite(l, up, down, i, j) <==>
            (turn == Drop || i > 0) && (turn == Add || j > 0)
            && Opposite(l, if turn == Drop then up else up[1..], if turn == Add then down else down[1..],
                        if turn == Drop then i else i - 1, if turn == Add then j else j - 1)
  {
    match turn
    case Add => OppositeUp(l, up, down, i, j);
    case Drop => OppositeDown(l, up, down, i, j);
    case Match =>
      SameKeepsKey(l, up[0], down[0]);
      OppositeBoth(l, up, down, i, j);
    case Swap =>
      CmpPreorder(l, up[0], down[0], down[0]);
      OppositeBoth(l, up, down, i, j);
  }

  /** For ascending streams: no replace is emitted, and the repair without unique key is exact, if and only if they are aligned. */
  lemma {:induction false} AlignedIff(l: Layout, up: seq<Row>, down: seq<Row>)
    requires Rows(l, up, down) && ExactKeys(l) && Ascending(l, up) && Ascending(l, down)
    ensures NoSwap(l, up, down) <==> Aligned(l, up, down)
  {
    if NoSwap(l, up, down) {
      forall i, j | 0 <= i < |up| && 0 <= j < |down| && Opposite(l, up, down, i, j)
        ensures Same(l, up[i], down[j])
      {
        AtOpposite(l, up, down, i, j);
        assert !At(l, up, down, i, j, Swap);
      }
    }
    if Aligned(l, up, down) {
      forall i: nat, j: nat
        ensures !At(l, up, down, i, j, Swap)
      {
        if i < |up| && j < |down| {
          AtOpposite(l, up, down, i, j);
        }
      }
    }
  }

  lemma {:induction false} StrictOffset(l: Layout, rows: seq<Row>, i: nat)
    requires LayoutOk(l) && RowsOk(l, rows) && Strict(l, rows) && i < |rows|
    ensures Offset(l, rows, i) == 0
    decreases i
  {
    if i > 0 {
      OffsetShift(l, rows, i);
      StrictOffset(l, rows[1..], i - 1);
    }
  }

  /** With one row per key on each side no row is displaced, and the counts are the differences. */
  lemma {:induction false} StrictInPlace(l: Layout, up: seq<Row>, down: seq<Row>, r: Row)
    requires Rows(l, up, down) && ExactKeys(l) && Strict(l, up) && Strict(l, down)
    ensures !Displaced(l, up, down, r)
  {
    forall i: nat, j: nat | i < |up| && j < |down| && up[i] == r && down[j] == r
      ensures UpMet(l, up, down, i)
    {
      StrictOffset(l, up, i);
      StrictOffset(l, down, j);
      CmpSelf(l, r);
      AtOpposite(l, up, down, i, j);
      assert At(l, up, down, i, j, Match);
    }
  }

  // ---------- Streams out of order ----------

  /** Two rows that the merge puts in one order and the comparison in the other. */
  predicate Crossed(l: Layout, z: Row, x: Row)
    requires LayoutOk(l) && RowOk(l, z) && RowOk(l, x)
  {
    Less(l, z, x) && Cmp(l, x, z) < 0 && !Same(l, x, z) && !Same(l, z, x)
  }

  lemma {:induction false} CrossedSorted(l: Layout, z: Row, x: Row)
    requires LayoutOk(l) && RowOk(l, z) && RowOk(l, x) && Crossed(l, z, x)
    ensures SortedRows(l, [z, x]) && SortedRows(l, [x]) && !Ascending(l, [z, x])
  {
    BothThreeWay();
    LexAntisymmetric(NullFirst, l, l.keys, z, x);
    CmpPreorder(l, z, x, x);
    assert [z, x][0] == z && [z, x][1] == x;
  }

  lemma {:induction false} CrossedMerge(l: Layout, z: Row, x: Row)
    requires LayoutOk(l) && RowOk(l, z) && RowOk(l, x) && Crossed(l, z, x)
    ensures Merge(l, [z, x], [x]) == [Delete(x), Insert(z), Insert(x)]
  {
    CmpPreorder(l, z, x, x);
    MergeUnfold(l, [z, x], [x]);
    MergeUnfold(l, [z, x], []);
    assert [x][1..] == [] && Inserts([z, x]) == [Insert(z), Insert(x)];
    assert [Delete(x)] + [Insert(z), Insert(x)] == [Delete(x), Insert(z), Insert(x)];
  }

  lemma {:induction false} CountsOfThree(z: Row, x: Row)
    ensures Adds([Delete(x), Insert(z), Insert(x)]) == 2 && Dels([Delete(x), Insert(z), Insert(x)]) == 1
  {
    CountsOne([], Delete(x));
    CountsOne([Delete(x)], Insert(z));
    CountsOne([Delete(x), Insert(z)], Insert(x));
    assert [] + [Delete(x)] == [Delete(x)] && [Delete(x)] + [Insert(z)] == [Delete(x), Insert(z)];
    assert [Delete(x), Insert(z)] + [Insert(x)] == [Delete(x), Insert(z), Insert(x)];
  }

  /** One row is missing downstream, and two differences are counted one way and one the other. */
  lemma {:induction false} CrossedCounts(l: Layout, z: Row, x: Row)
    requires LayoutOk(l) && RowOk(l, z) && RowOk(l, x) && Crossed(l, z, x)
    ensures Adds(Merge(l, [z, x], [x])) == 2 && Dels(Merge(l, [z, x], [x])) == 1
    ensures |multiset([z, x]) - multiset([x])| == 1 && |multiset([x]) - multiset([z, x])| == 0
  {
    CrossedMerge(l, z, x);
    CountsOfThree(z, x);
    OneLeft(z, x);
  }

  lemma {:induction false} OneLeft(z: Row, x: Row)
    ensures |multiset([z, x]) - multiset([x])| == 1 && |multiset([x]) - multiset([z, x])| == 0
  {
    assert multiset([z, x]) - multiset([x]) == multiset{z};
    assert multiset([x]) - multiset([z, x]) == multiset{};
  }

  /** There are such rows, behind a quoted key column that can be NULL: (NULL, 2) and ('', 1). */
  lemma {:induction false} CrossedRows()
    ensures var l := Layout([Column(Plain, true, 0.0), Column(Plain, false, 0.0)], [0, 1]);
            var z, x := [None, Some(Keys.Value("2", 2.0))], [Some(Keys.Value("", 0.0)), Some(Keys.Value("1", 1.0))];
            LayoutOk(l) && RowOk(l, z) && RowOk(l, x) && Crossed(l, z, x) && KeyNonNull(l, x) && EmptyFirst(l, z) && EmptyFirst(l, x)
  {
    var l := Layout([Column(Plain, true, 0.0), Column(Plain, false, 0.0)], [0, 1]);
    var z: Row, x: Row := [None, Some(Keys.Value("2", 2.0))], [Some(Keys.Value("", 0.0)), Some(Keys.Value("1", 1.0))];
    assert l.keys[1..] == [1];
    assert Lex(KeyOrder, l, [1], x, z) == -1;
    assert Lex(KeyOrder, l, l.keys, x, z) == Lex(KeyOrder, l, l.keys[1..], x, z);
    assert Lex(NullFirst, l, l.keys, z, x) == -1;
    assert !SameCell(l.columns[0], x[0], z[0]) && !SameCell(l.columns[0], z[0], x[0]);
  }
}
