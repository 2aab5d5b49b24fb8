/**
 * Comparing two sorted streams of rows and writing the statements that repair the downstream one
 * (sync_diff_inspector/diff.go).
 */
module CompareRows {
  import opened Wrappers
  import opened RowOrder
  import opened RowMerge

  /** A fix statement: delete a downstream row, or write an upstream row (for a replace, over a downstream row). */
  datatype Op = Delete(row: Row) | Insert(row: Row) | Replace(row: Row, over: Row)

  /** An entry of the list of statements; one that was not generated is empty. */
  datatype Statement = Sql(op: Op) | Blank

  function Deletes(down: seq<Row>): seq<Op> {
    seq(|down|, i requires 0 <= i < |down| => Delete(down[i]))
  }

  function Inserts(up: seq<Row>): seq<Op> {
    seq(|up|, i requires 0 <= i < |up| => Insert(up[i]))
  }

  predicate Rows(l: Layout, up: seq<Row>, down: seq<Row>) {
    LayoutOk(l) && RowsOk(l, up) && RowsOk(l, down)
  }

  /** The operations while both streams have rows. */
  function Both(l: Layout, up: seq<Row>, down: seq<Row>): seq<Op>
    requires Rows(l, up, down)
    decreases |up| + |down|
  {
    if up == [] || down == [] then []
    else if Same(l, up[0], down[0]) then Both(l, up[1..], down[1..])
    else
      var c := Cmp(l, up[0], down[0]);
      if c > 0 then [Delete(down[0])] + Both(l, up, down[1..])
      else if c < 0 then [Insert(up[0])] + Both(l, up[1..], down)
      else [Replace(up[0], down[0])] + Both(l, up[1..], down[1..])
  }

  /** What is left of the longer stream when the other one ends. */
  function Tail(l: Layout, up: seq<Row>, down: seq<Row>): seq<Op>
    requires Rows(l, up, down)
    decreases |up| + |down|
  {
    if up == [] then Deletes(down)
    else if down == [] then Inserts(up)
    else if Same(l, up[0], down[0]) then Tail(l, up[1..], down[1..])
    else
      var c := Cmp(l, up[0], down[0]);
      if c > 0 then Tail(l, up, down[1..])
      else if c < 0 then Tail(l, up[1..], down)
      else Tail(l, up[1..], down[1..])
  }

  /** All operations, in order. */
  function Merge(l: Layout, up: seq<Row>, down: seq<Row>): seq<Op>
    requires Rows(l, up, down)
  {
    Both(l, up, down) + Tail(l, up, down)
  }

  function Sqls(ops: seq<Op>): seq<Statement> {
    seq(|ops|, i requires 0 <= i < |ops| => Sql(ops[i]))
  }

  function Blanks(n: nat): seq<Statement> { seq(n, i => Blank) }

  /** Without export, only the entries of the main loop are appended, and they are empty. */
  function Statements(l: Layout, up: seq<Row>, down: seq<Row>, exporting: bool): seq<Statement>
    requires Rows(l, up, down)
  {
    if exporting then Sqls(Merge(l, up, down)) else Blanks(|Both(l, up, down)|)
  }

  function Adds(ops: seq<Op>): nat {
    if ops == [] then 0 else (if ops[0].Delete? then 0 else 1) + Adds(ops[1..])
  }

  function Dels(ops: seq<Op>): nat {
    if ops == [] then 0 else (if ops[0].Insert? then 0 else 1) + Dels(ops[1..])
  }

  // ---------- The loop ----------

  lemma {:induction false} CountsAppend(a: seq<Op>, b: seq<Op>)
    ensures Adds(a + b) == Adds(a) + Adds(b) && Dels(a + b) == Dels(a) + Dels(b)
  {
    if a == [] {
      assert a + b == b;
    } else {
      assert (a + b)[1..] == a[1..] + b;
      CountsAppend(a[1..], b);
    }
  }

  lemma {:induction false} CountsOne(a: seq<Op>, op: Op)
    ensures Adds(a + [op]) == Adds(a) + (if op.Delete? then 0 else 1)
    ensures Dels(a + [op]) == Dels(a) + (if op.Insert? then 0 else 1)
  {
    CountsAppend(a, [op]);
  }

  /** What the loop has done so far, and what is still to do. */
  ghost predicate Done(l: Layout, up: seq<Row>, down: seq<Row>, done: seq<Op>, left: seq<Row>, right: seq<Row>)
    requires Rows(l, up, down)
  {
    && Rows(l, left, right)
    && Both(l, up, down) == done + Both(l, left, right) && Tail(l, up, down) == Tail(l, left, right)
  }

  /** The operation for two rows that are not the same. */
  function OpFor(l: Layout, u: Row, d: Row): Op
    requires LayoutOk(l) && RowOk(l, u) && RowOk(l, d)
  {
    var c := Cmp(l, u, d);
    if c > 0 then Delete(d) else if c < 0 then Insert(u) else Replace(u, d)
  }

  function AfterUp(left: seq<Row>, op: Op): seq<Row>
    requires left != []
  {
    if op.Delete? then left else left[1..]
  }

  function AfterDown(right: seq<Row>, op: Op): seq<Row>
    requires right != []
  {
    if op.Insert? then right else right[1..]
  }

  lemma {:induction false} DoneSame(l: Layout, up: seq<Row>, down: seq<Row>, done: seq<Op>, left: seq<Row>, right: seq<Row>)
    requires Rows(l, up, down) && Done(l, up, down, done, left, right) && left != [] && right != []
    requires Same(l, left[0], right[0])
    ensures Done(l, up, down, done, left[1..], right[1..])
  {
  }

  lemma {:induction false} DoneStep(l: Layout, up: seq<Row>, down: seq<Row>, done: seq<Op>, left: seq<Row>, right: seq<Row>)
    requires Rows(l, up, down) && Done(l, up, down, done, left, right) && left != [] && right != []
    requires !Same(l, left[0], right[0])
    ensures var op := OpFor(l, left[0], right[0]);
            Done(l, up, down, done + [op], AfterUp(left, op), AfterDown(right, op))
  {
  }

  /** The next row of a stream, if it has one. */
  method NextRow(rest: seq<Row>) returns (row: Option<Row>, rest': seq<Row>)
    ensures Stream(row, rest') == rest && (row.None? ==> rest' == [])
  {
    if rest == [] {
      return None, rest;
    }
    return Some(rest[0]), rest[1..];
  }

  function Entries(ops: seq<Op>, exporting: bool): seq<Statement> {
    if exporting then Sqls(ops) else Blanks(|ops|)
  }

  lemma {:induction false} EntriesOne(ops: seq<Op>, op: Op, exporting: bool)
    ensures Entries(ops + [op], exporting) == Entries(ops, exporting) + [if exporting then Sql(op) else Blank]
  {
  }

  /** The statements of the last loops are only appended when they are exported. */
  function Appended(sqls: seq<Statement>, ops: seq<Op>, exporting: bool): seq<Statement> {
    sqls + if exporting then Sqls(ops) else []
  }

  lemma {:induction false} AppendedOne(sqls: seq<Statement>, ops: seq<Op>, op: Op, exporting: bool)
    ensures Appended(sqls, ops + [op], exporting) == Appended(sqls, ops, exporting) + if exporting then [Sql(op)] else []
  {
    assert Sqls(ops + [op]) == Sqls(ops) + [Sql(op)];
  }

  lemma {:induction false} InsertCounts(up: seq<Row>)
    ensures Adds(Inserts(up)) == |up| && Dels(Inserts(up)) == 0
  {
    if up != [] {
      assert Inserts(up)[1..] == Inserts(up[1..]);
      InsertCounts(up[1..]);
    }
  }

  lemma {:induction false} DeleteCounts(down: seq<Row>)
    ensures Adds(Deletes(down)) == 0 && Dels(Deletes(down)) == |down|
  {
    if down != [] {
      assert Deletes(down)[1..] == Deletes(down[1..]);
      DeleteCounts(down[1..]);
    }
  }

  lemma {:induction false} EndsCounts(done: seq<Op>, left: seq<Row>, right: seq<Row>, tail: seq<Op>)
    requires (left == [] || right == []) && tail == if left == [] then Deletes(right) else Inserts(left)
    ensures Adds(done + tail) == Adds(done) + |left| && Dels(done + tail) == Dels(done) + |right|
  {
    CountsAppend(done, tail);
    InsertCounts(left);
    DeleteCounts(right);
  }

  lemma {:induction false} EndsMerge(l: Layout, up: seq<Row>, down: seq<Row>, done: seq<Op>, left: seq<Row>, right: seq<Row>, tail: seq<Op>)
    requires Rows(l, up, down) && Done(l, up, down, done, left, right)
    requires (left == [] || right == []) && tail == if left == [] then Deletes(right) else Inserts(left)
    ensures Both(l, up, down) == done && Merge(l, up, down) == done + tail
  {
    assert Both(l, left, right) == [] && done + [] == done;
    assert Tail(l, left, right) == tail;
  }

  /** What the result is when one stream has ended. */
  lemma {:induction false} Ends(l: Layout, up: seq<Row>, down: seq<Row>, done: seq<Op>, left: seq<Row>, right: seq<Row>, exporting: bool)
    requires Rows(l, up, down) && Done(l, up, down, done, left, right) && (left == [] || right == [])
    ensures var tail := if left == [] then Deletes(right) else Inserts(left);
            && Merge(l, up, down) == done + tail
            && Statements(l, up, down, exporting) == Appended(Entries(done, exporting), tail, exporting)
            && Adds(Merge(l, up, down)) == Adds(done) + |left| && Dels(Merge(l, up, down)) == Dels(done) + |right|
  {
    var tail := if left == [] then Deletes(right) else Inserts(left);
    EndsMerge(l, up, down, done, left, right, tail);
    EndsCounts(done, left, right, tail);
    assert Sqls(done + tail) == Sqls(done) + Sqls(tail);
  }

  /** What is done about two rows: nothing if they are the same, else the operation, its entry, and what it counts as. */
  datatype Difference = Difference(op: Op, sql: Statement, more: nat, less: nat)

  function DifferenceOf(l: Layout, u: Row, d: Row, exporting: bool): Option<Difference>
    requires LayoutOk(l) && RowOk(l, u) && RowOk(l, d)
  {
    var op := OpFor(l, u, d);
    if Same(l, u, d) then None
    else Some(Difference(op, if exporting then Sql(op) else Blank, if op.Delete? then 0 else 1, if op.Insert? then 0 else 1))
  }

  method Differ(l: Layout, u: Row, d: Row, exportFixSQL: bool) returns (r: Option<Difference>)
    requires LayoutOk(l) && RowOk(l, u) && RowOk(l, d)
    ensures r == DifferenceOf(l, u, d, exportFixSQL)
  {
    var eq, cmp := CompareData(l, u, d);
    if eq {
      return None;
    }
    var op, more, less := Replace(u, d), 1, 1;
    if cmp > 0 {
      op, more := Delete(d), 0;
    } else if cmp < 0 {
      op, less := Insert(u), 0;
    }
    return Some(Difference(op, if exportFixSQL then Sql(op) else Blank, more, less));
  }

  /** The state of the loop, with what is left of both streams. */
  datatype Loop = Loop(equal: bool, sqls: seq<Statement>, rowsAdd: nat, rowsDelete: nat)

  ghost predicate Reached(l: Layout, up: seq<Row>, down: seq<Row>, exporting: bool, left: seq<Row>, right: seq<Row>, s: Loop, done: seq<Op>)
    requires Rows(l, up, down)
  {
    && Done(l, up, down, done, left, right)
    && s == Loop(done == [], Entries(done, exporting), Adds(done), Dels(done))
  }

  /** The rows that are left when a difference has been dealt with. */
  function LeftUp(left: seq<Row>, diff: Option<Difference>): seq<Row>
    requires left != []
  {
    if diff.Some? then AfterUp(left, diff.value.op) else left[1..]
  }

  function LeftDown(right: seq<Row>, diff: Option<Difference>): seq<Row>
    requires right != []
  {
    if diff.Some? then AfterDown(right, diff.value.op) else right[1..]
  }

  function NextState(s: Loop, diff: Option<Difference>): Loop {
    if diff.None? then s
    else Loop(false, s.sqls + [diff.value.sql], s.rowsAdd + diff.value.more, s.rowsDelete + diff.value.less)
  }

  function NextDone(done: seq<Op>, diff: Option<Difference>): seq<Op> {
    if diff.None? then done else done + [diff.value.op]
  }

  lemma {:induction false} ReachedMore(l: Layout, up: seq<Row>, down: seq<Row>, exporting: bool, left: seq<Row>, right: seq<Row>, s: Loop, done: seq<Op>,
                                       diff: Option<Difference>)
    requires Rows(l, up, down) && Reached(l, up, down, exporting, left, right, s, done) && left != [] && right != []
    requires RowOk(l, left[0]) && RowOk(l, right[0]) && diff == DifferenceOf(l, left[0], right[0], exporting)
    ensures Reached(l, up, down, exporting, LeftUp(left, diff), LeftDown(right, diff), NextState(s, diff), NextDone(done, diff))
    ensures |LeftUp(left, diff)| + |LeftDown(right, diff)| < |left| + |right|
  {
    if diff.None? {
      DoneSame(l, up, down, done, left, right);
    } else {
      DoneStep(l, up, down, done, left, right);
      EntriesOne(done, diff.value.op, exporting);
      CountsOne(done, diff.value.op);
    }
  }

  /** The first row of a stream that has been taken. */
  lemma {:induction false} Taken(all: seq<Row>, row: Row, rest: seq<Row>)
    requires all == Stream(Some(row), rest)
    ensures all != [] && all[0] == row && all[1..] == rest == Stream(None, rest)
  {
  }

  /** The loop while both streams have rows. */
  method CompareBoth(l: Layout, up: seq<Row>, down: seq<Row>, exportFixSQL: bool)
    returns (s: Loop, lastUp: Option<Row>, upstream: seq<Row>, lastDown: Option<Row>, downstream: seq<Row>, ghost done: seq<Op>)
    requires Rows(l, up, down)
    ensures Reached(l, up, down, exportFixSQL, Stream(lastUp, upstream), Stream(lastDown, downstream), s, done)
    ensures (lastUp.None? ==> upstream == []) && (lastDown.None? ==> downstream == []) && (lastUp.None? || lastDown.None?)
  {
    upstream, downstream, lastUp, lastDown := up, down, None, None;
    s, done := Loop(true, [], 0, 0), [];
    ghost var left, right := up, down;
    while true
      invariant left == Stream(lastUp, upstream) && right == Stream(lastDown, downstream)
      invariant Reached(l, up, down, exportFixSQL, left, right, s, done)
      decreases |left| + |right|
    {
      if lastUp.None? {
        lastUp, upstream := NextRow(upstream);
      }
      if lastDown.None? {
        lastDown, downstream := NextRow(downstream);
      }
      if lastUp.None? || lastDown.None? {
        return;
      }
      Taken(left, lastUp.value, upstream);
      Taken(right, lastDown.value, downstream);
      var diff := Differ(l, lastUp.value, lastDown.value, exportFixSQL);
      ReachedMore(l, up, down, exportFixSQL, left, right, s, done, diff);
      s := NextState(s, diff);
      if diff.None? || !diff.value.op.Insert? {
        lastDown := None;
      }
      if diff.None? || !diff.value.op.Delete? {
        lastUp := None;
      }
      left, right, done := LeftUp(left, diff), LeftDown(right, diff), NextDone(done, diff);
    }
  }

  /** Compares two streams of rows; the statements, the counts, and whether the streams are equal. */
  method Compare(l: Layout, up: seq<Row>, down: seq<Row>, exportFixSQL: bool)
    returns (equal: bool, sqls: seq<Statement>, rowsAdd: nat, rowsDelete: nat)
    requires Rows(l, up, down)
    ensures equal <==> Merge(l, up, down) == []
    ensures sqls == Statements(l, up, down, exportFixSQL)
    ensures rowsAdd == Adds(Merge(l, up, down)) && rowsDelete == Dels(Merge(l, up, down))
  {
    ghost var done;
    var s, lastUp, upstream, lastDown, downstream;
    s, lastUp, upstream, lastDown, downstream, done := CompareBoth(l, up, down, exportFixSQL);
    Ends(l, up, down, done, Stream(lastUp, upstream), Stream(lastDown, downstream), exportFixSQL);
    equal, sqls, rowsAdd, rowsDelete :=
      CompareRest(lastUp, upstream, lastDown, downstream, exportFixSQL, s.equal, s.sqls, s.rowsAdd, s.rowsDelete);
  }

  /** One stream has ended: the rows of the other one are redundant, or lacking. */
  method CompareRest(lastUp: Option<Row>, upstream: seq<Row>, lastDown: Option<Row>, downstream: seq<Row>, exportFixSQL: bool,
                     equal: bool, sqls: seq<Statement>, rowsAdd: nat, rowsDelete: nat)
    returns (equal': bool, sqls': seq<Statement>, rowsAdd': nat, rowsDelete': nat)
    requires (lastUp.None? ==> upstream == []) && (lastDown.None? ==> downstream == []) && (lastUp.None? || lastDown.None?)
    ensures var left, right := Stream(lastUp, upstream), Stream(lastDown, downstream);
            && equal' == (equal && left == [] && right == []) && rowsAdd' == rowsAdd + |left| && rowsDelete' == rowsDelete + |right|
            && sqls' == Appended(sqls, if left == [] then Deletes(right) else Inserts(left), exportFixSQL)
  {
    rowsAdd', rowsDelete' := rowsAdd, rowsDelete;
    if lastUp.None? {
      sqls', rowsDelete', equal' := DeleteRest(lastDown, downstream, exportFixSQL, sqls, rowsDelete, equal);
    } else {
      sqls', rowsAdd', equal' := InsertRest(lastUp, upstream, exportFixSQL, sqls, rowsAdd, equal);
    }
  }

  lemma {:induction false} DeletesNext(right: seq<Row>, n: nat)
    requires n < |right|
    ensures Deletes(right[..n + 1]) == Deletes(right[..n]) + [Delete(right[n])]
  {
  }

  lemma {:induction false} InsertsNext(left: seq<Row>, n: nat)
    requires n < |left|
    ensures Inserts(left[..n + 1]) == Inserts(left[..n]) + [Insert(left[n])]
  {
  }

  /** The row at hand and those behind it, in a stream from the `n`-th row on. */
  lemma {:induction false} StreamNext(all: seq<Row>, n: nat, row: Row, rest: seq<Row>)
    requires n <= |all| && all[n..] == Stream(Some(row), rest)
    ensures n < |all| && all[n] == row && all[n + 1..] == rest
  {
    assert all[n..][0] == row && all[n..][1..] == all[n + 1..];
  }

  /** The upstream has ended: the remaining downstream rows are redundant. */
  method DeleteRest(last: Option<Row>, downstream: seq<Row>, exportFixSQL: bool, sqls: seq<Statement>, rowsDelete: nat, equal: bool)
    returns (sqls': seq<Statement>, rowsDelete': nat, equal': bool)
    requires last.None? ==> downstream == []
    ensures var right := Stream(last, downstream);
            && rowsDelete' == rowsDelete + |right| && equal' == (equal && right == [])
            && sqls' == Appended(sqls, Deletes(right), exportFixSQL)
  {
    sqls', rowsDelete', equal' := sqls, rowsDelete, equal;
    var lastDownstreamData, rest := last, downstream;
    ghost var right := Stream(last, downstream);
    ghost var n := 0;
    while lastDownstreamData.Some?
      invariant n <= |right| && right[n..] == Stream(lastDownstreamData, rest) && (lastDownstreamData.None? ==> rest == [])
      invariant rowsDelete' == rowsDelete + n && equal' == (equal && n == 0)
      invariant sqls' == Appended(sqls, Deletes(right[..n]), exportFixSQL)
      decreases |right| - n
    {
      rowsDelete' := rowsDelete' + 1;
      if exportFixSQL {
        sqls' := sqls' + [Sql(Delete(lastDownstreamData.value))];
      }
      equal' := false;
      StreamNext(right, n, lastDownstreamData.value, rest);
      DeletesNext(right, n);
      AppendedOne(sqls, Deletes(right[..n]), Delete(right[n]), exportFixSQL);
      n := n + 1;
      lastDownstreamData, rest := NextRow(rest);
    }
    assert right[..|right|] == right;
  }

  /** The downstream has ended: it lacks the remaining upstream rows. */
  method InsertRest(last: Option<Row>, upstream: seq<Row>, exportFixSQL: bool, sqls: seq<Statement>, rowsAdd: nat, equal: bool)
    returns (sqls': seq<Statement>, rowsAdd': nat, equal': bool)
    requires last.None? ==> upstream == []
    ensures var left := Stream(last, upstream);
            && rowsAdd' == rowsAdd + |left| && equal' == (equal && left == [])
            && sqls' == Appended(sqls, Inserts(left), exportFixSQL)
  {
    sqls', rowsAdd', equal' := sqls, rowsAdd, equal;
    var lastUpstreamData, rest := last, upstream;
    ghost var left := Stream(last, upstream);
    ghost var n := 0;
    while lastUpstreamData.Some?
      invariant n <= |left| && left[n..] == Stream(lastUpstreamData, rest) && (lastUpstreamData.None? ==> rest == [])
      invariant rowsAdd' == rowsAdd + n && equal' == (equal && n == 0)
      invariant sqls' == Appended(sqls, Inserts(left[..n]), exportFixSQL)
      decreases |left| - n
    {
      rowsAdd' := rowsAdd' + 1;
      if exportFixSQL {
        sqls' := sqls' + [Sql(Insert(lastUpstreamData.value))];
      }
      equal' := false;
      StreamNext(left, n, lastUpstreamData.value, rest);
      InsertsNext(left, n);
      AppendedOne(sqls, Inserts(left[..n]), Insert(left[n]), exportFixSQL);
      n := n + 1;
      lastUpstreamData, rest := NextRow(rest);
    }
    assert left[..|left|] == left;
  }
}
