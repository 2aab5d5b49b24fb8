/**
 * The walk of the row comparison (sync_diff_inspector/diff.go) through its two streams, turn by turn: which pairs of rows
 * it gets to, and what it does there.  Nothing is assumed of the order of the streams, so that what is said by turns holds
 * of any streams, also of those in which NULL does not stand where the comparison looks for it.
 */
module Turns {
  import opened RowOrder
  import opened RowMerge
  import opened CompareRows

  /** No floats and no JSON: two rows are the same only if they are equal. */
  predicate ExactColumns(l: Layout) {
    forall i :: 0 <= i < |l.columns| ==> l.columns[i].kind == Plain
  }

  predicate ExactKeys(l: Layout)
    requires LayoutOk(l)
  {
    forall i :: 0 <= i < |l.keys| ==> l.columns[l.keys[i]].kind == Plain
  }

  lemma {:induction false} SameIsEqual(l: Layout, a: Row, b: Row)
    requires LayoutOk(l) && RowOk(l, a) && RowOk(l, b) && ExactColumns(l)
    ensures Same(l, a, b) <==> a == b
  {
    if Same(l, a, b) {
      forall i | 0 <= i < |a|
        ensures a[i] == b[i]
      {
        assert SameCell(l.columns[i], a[i], b[i]);
      }
    }
  }

  lemma {:induction false} LexSame(l: Layout, keys: seq<nat>, a: Row, b: Row)
    requires RowOk(l, a) && RowOk(l, b) && KeysIn(l, keys)
    requires forall i :: 0 <= i < |keys| ==> a[keys[i]] == b[keys[i]]
    ensures Lex(KeyOrder, l, keys, a, b) == 0
  {
    if keys != [] {
      LexSame(l, keys[1..], a, b);
    }
  }

  lemma {:induction false} CmpSelf(l: Layout, u: Row)
    requires LayoutOk(l) && RowOk(l, u)
    ensures Cmp(l, u, u) == 0
  {
    LexSame(l, l.keys, u, u);
  }

  /** Rows that are the same have the same key, unless key columns are floats or JSON. */
  lemma {:induction false} SameKeepsKey(l: Layout, a: Row, b: Row)
    requires LayoutOk(l) && RowOk(l, a) && RowOk(l, b) && ExactKeys(l) && Same(l, a, b)
    ensures Cmp(l, a, b) == 0
  {
    forall i | 0 <= i < |l.keys|
      ensures a[l.keys[i]] == b[l.keys[i]]
    {
      assert SameCell(l.columns[l.keys[i]], a[l.keys[i]], b[l.keys[i]]);
    }
    LexSame(l, l.keys, a, b);
  }

  /** A row at the same position compares like the other one. */
  lemma {:induction false} CmpAlike(l: Layout, a: Row, b: Row, c: Row)
    requires LayoutOk(l) && RowOk(l, a) && RowOk(l, b) && RowOk(l, c) && Cmp(l, a, b) == 0
    ensures Cmp(l, a, c) == 0 <==> Cmp(l, b, c) == 0
    ensures Cmp(l, c, a) < 0 <==> Cmp(l, c, b) < 0
    ensures Cmp(l, a, c) <= 0 <==> Cmp(l, b, c) <= 0
  {
    CmpPreorder(l, a, b, c);
    CmpPreorder(l, b, a, c);
    CmpPreorder(l, c, a, b);
    CmpPreorder(l, c, b, a);
  }

  /** The operations in one list: those of the main loop first, then the rest. */
  lemma {:induction false} MergeUnfold(l: Layout, up: seq<Row>, down: seq<Row>)
    requires Rows(l, up, down)
    ensures up == [] ==> Merge(l, up, down) == Deletes(down)
    ensures down == [] ==> Merge(l, up, down) == if up == [] then [] else Inserts(up)
    ensures up != [] && down != [] && Same(l, up[0], down[0]) ==> Merge(l, up, down) == Merge(l, up[1..], down[1..])
    ensures up != [] && down != [] && !Same(l, up[0], down[0]) ==>
              var op := OpFor(l, up[0], down[0]);
              Merge(l, up, down) == [op] + Merge(l, AfterUp(up, op), AfterDown(down, op))
  {
    if up != [] && down != [] && !Same(l, up[0], down[0]) {
      var op := OpFor(l, up[0], down[0]);
      assert Both(l, up, down) == [op] + Both(l, AfterUp(up, op), AfterDown(down, op));
      assert Tail(l, up, down) == Tail(l, AfterUp(up, op), AfterDown(down, op));
    }
  }

  // ---------- Turns ----------

  /** The rows are the same, the upstream one is inserted, the downstream one deleted, or one replaces the other. */
  datatype Turn = Match | Add | Drop | Swap

  function TurnOf(l: Layout, up: seq<Row>, down: seq<Row>): Turn
    requires Rows(l, up, down) && (up != [] || down != [])
  {
    if up == [] then Drop
    else if down == [] then Add
    else if Same(l, up[0], down[0]) then Match
    else if Cmp(l, up[0], down[0]) > 0 then Drop
    else if Cmp(l, up[0], down[0]) < 0 then Add
    else Swap
  }

  function RestUp(l: Layout, up: seq<Row>, down: seq<Row>): (rest: seq<Row>)
    requires Rows(l, up, down) && (up != [] || down != [])
    ensures RowsOk(l, rest)
  {
    if TurnOf(l, up, down) == Drop then up else up[1..]
  }

  function RestDown(l: Layout, up: seq<Row>, down: seq<Row>): (rest: seq<Row>)
    requires Rows(l, up, down) && (up != [] || down != [])
    ensures RowsOk(l, rest)
  {
    if TurnOf(l, up, down) == Add then down else down[1..]
  }

  lemma {:induction false} RestShorter(l: Layout, up: seq<Row>, down: seq<Row>)
    requires Rows(l, up, down) && (up != [] || down != [])
    ensures |RestUp(l, up, down)| + |RestDown(l, up, down)| < |up| + |down|
  {
  }

  /** The operations of a turn: one, or none for rows that are the same. */
  function OpsOf(l: Layout, up: seq<Row>, down: seq<Row>): seq<Op>
    requires Rows(l, up, down) && (up != [] || down != [])
  {
    match TurnOf(l, up, down)
    case Match => []
    case Add => [Insert(up[0])]
    case Drop => [Delete(down[0])]
    case Swap => [Replace(up[0], down[0])]
  }

  lemma {:induction false} RestsHead(rows: seq<Row>)
    requires rows != []
    ensures Deletes(rows) == [Delete(rows[0])] + Deletes(rows[1..]) && Inserts(rows) == [Insert(rows[0])] + Inserts(rows[1..])
  {
  }

  lemma {:induction false} NothingBefore(ops: seq<Op>)
    ensures [] + ops == ops
  {
  }

  /** All operations are those of the first turn, and those of the walk behind it. */
  lemma {:induction false} MergeTurn(l: Layout, up: seq<Row>, down: seq<Row>)
    requires Rows(l, up, down) && (up != [] || down != [])
    ensures Merge(l, up, down) == OpsOf(l, up, down) + Merge(l, RestUp(l, up, down), RestDown(l, up, down))
  {
    MergeUnfold(l, up, down);
    if up == [] {
      MergeUnfold(l, up, down[1..]);
      RestsHead(down);
    } else if down == [] {
      MergeUnfold(l, up[1..], down);
      RestsHead(up);
    } else if Same(l, up[0], down[0]) {
      NothingBefore(Merge(l, up[1..], down[1..]));
    }
  }

  lemma {:induction false} MergeNothing(l: Layout)
    requires LayoutOk(l)
    ensures Merge(l, [], []) == []
  {
  }

  // ---------- Where the walk gets to ----------

  /** The walk gets to the point behind `i` upstream and `j` downstream rows. */
  predicate Meets(l: Layout, up: seq<Row>, down: seq<Row>, i: nat, j: nat)
    requires Rows(l, up, down)
    decreases |up| + |down|
  {
    (i == 0 && j == 0)
    || ((up != [] || down != [])
        && var turn := TurnOf(l, up, down);
        && (turn == Drop || i > 0) && (turn == Add || j > 0)
        && Meets(l, RestUp(l, up, down), RestDown(l, up, down), if turn == Drop then i else i - 1, if turn == Add then j else j - 1))
  }

  /** There it takes a turn. */
  predicate At(l: Layout, up: seq<Row>, down: seq<Row>, i: nat, j: nat, turn: Turn)
    requires Rows(l, up, down)
  {
    && i <= |up| && j <= |down| && (i < |up| || j < |down|)
    && Meets(l, up, down, i, j) && TurnOf(l, up[i..], down[j..]) == turn
  }

  lemma {:induction false} AtHead(l: Layout, up: seq<Row>, down: seq<Row>, i: nat, j: nat, turn: Turn)
    requires Rows(l, up, down) && (up != [] || down != [])
    ensures i == 0 && j == 0 ==> (At(l, up, down, i, j, turn) <==> TurnOf(l, up, down) == turn)
  {
    assert up[0..] == up && down[0..] == down;
  }

  /** Behind the first turn the walk is that of the rest. */
  lemma {:induction false} AtRest(l: Layout, up: seq<Row>, down: seq<Row>, i: nat, j: nat, turn: Turn)
    requires Rows(l, up, down) && (up != [] || down != []) && (i > 0 || j > 0)
    ensures var first := TurnOf(l, up, down);
            At(l, up, down, i, j, turn) <==>
            && (first == Drop || i > 0) && (first == Add || j > 0)
            && At(l, RestUp(l, up, down), RestDown(l, up, down), if first == Drop then i else i - 1, if first == Add then j else j - 1, turn)
  {
    if 0 < i <= |up| {
      assert up[1..][i - 1..] == up[i..];
    }
    if 0 < j <= |down| {
      assert down[1..][j - 1..] == down[j..];
    }
  }

  /** A turn of the rest is one of the whole walk. */
  lemma {:induction false} AtBack(l: Layout, up: seq<Row>, down: seq<Row>, first: Turn, up': seq<Row>, down': seq<Row>, i: nat, j: nat, turn: Turn)
    requires Rows(l, up, down) && (up != [] || down != [])
    requires first == TurnOf(l, up, down) && up' == RestUp(l, up, down) && down' == RestDown(l, up, down) && At(l, up', down', i, j, turn)
    ensures At(l, up, down, if first == Drop then i else i + 1, if first == Add then j else j + 1, turn)
    ensures j < |down'| ==> (if first == Add then j else j + 1) < |down| && down[if first == Add then j else j + 1] == down'[j]
  {
    AtRest(l, up, down, if first == Drop then i else i + 1, if first == Add then j else j + 1, turn);
  }
}
