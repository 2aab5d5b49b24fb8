/**
 * What the fix statements do when they are applied to the downstream table, in order.
 */
module Repair {
  import opened Wrappers
  import Keys
  import opened RowOrder
  import opened RowMerge
  import opened CompareRows
  import opened Turns

  // ---------- A table without unique key ----------

  /** Deleting removes one copy of the row; writing adds one. */
  function ApplyBag(ops: seq<Op>, bag: multiset<Row>): multiset<Row> {
    if ops == [] then bag
    else ApplyBag(ops[1..], match ops[0]
                            case Delete(r) => bag - multiset{r}
                            case Insert(r) => bag + multiset{r}
                            case Replace(r, _) => bag + multiset{r})
  }

  /** The downstream rows that replace statements were meant to write over. */
  function Stale(ops: seq<Op>): multiset<Row> {
    if ops == [] then multiset{}
    else (if ops[0].Replace? then multiset{ops[0].over} else multiset{}) + Stale(ops[1..])
  }

  lemma {:induction false} ApplyBagAppend(a: seq<Op>, b: seq<Op>, bag: multiset<Row>)
    ensures ApplyBag(a + b, bag) == ApplyBag(b, ApplyBag(a, bag))
    ensures Stale(a + b) == Stale(a) + Stale(b)
    decreases |a|
  {
    if a == [] {
      assert a + b == b;
    } else {
      assert (a + b)[1..] == a[1..] + b;
      ApplyBagAppend(a[1..], b, match a[0]
                                case Delete(r) => bag - multiset{r}
                                case Insert(r) => bag + multiset{r}
                                case Replace(r, _) => bag + multiset{r});
    }
  }

  lemma {:induction false} BagInserts(up: seq<Row>, bag: multiset<Row>)
    ensures ApplyBag(Inserts(up), bag) == bag + multiset(up) && Stale(Inserts(up)) == multiset{}
    decreases |up|
  {
    if up != [] {
      assert Inserts(up)[1..] == Inserts(up[1..]);
      BagInserts(up[1..], bag + multiset{up[0]});
      assert up == [up[0]] + up[1..];
    }
  }

  lemma {:induction false} BagDeletes(down: seq<Row>, bag: multiset<Row>)
    ensures ApplyBag(Deletes(down), bag + multiset(down)) == bag && Stale(Deletes(down)) == multiset{}
    decreases |down|
  {
    if down != [] {
      assert Deletes(down)[1..] == Deletes(down[1..]);
      assert down == [down[0]] + down[1..];
      assert bag + multiset(down) - multiset{down[0]} == bag + multiset(down[1..]);
      BagDeletes(down[1..], bag);
    }
  }

  lemma {:induction false} ApplyFirst(op: Op, ops: seq<Op>, bag: multiset<Row>)
    ensures ApplyBag([op] + ops, bag) == ApplyBag(ops, match op
                                                       case Delete(r) => bag - multiset{r}
                                                       case Insert(r) => bag + multiset{r}
                                                       case Replace(r, _) => bag + multiset{r})
    ensures Stale([op] + ops) == (if op.Replace? then multiset{op.over} else multiset{}) + Stale(ops)
  {
    assert ([op] + ops)[1..] == ops;
  }

  lemma {:induction false} HeadBag(rows: seq<Row>)
    requires rows != []
    ensures multiset(rows) == multiset{rows[0]} + multiset(rows[1..])
  {
    assert rows == [rows[0]] + rows[1..];
  }

  /** The bag an operation leaves, before the rows still to be looked at. */
  function Kept(bag: multiset<Row>, op: Op): multiset<Row> {
    match op
    case Delete(_) => bag
    case Insert(r) => bag + multiset{r}
    case Replace(r, over) => bag + multiset{r} + multiset{over}
  }

  lemma {:induction false} BagStep(op: Op, ops: seq<Op>, bag: multiset<Row>, up: seq<Row>, down: seq<Row>)
    requires up != [] && down != [] && (op == Delete(down[0]) || op == Insert(up[0]) || op == Replace(up[0], down[0]))
    ensures ApplyBag([op] + ops, bag + multiset(down)) == ApplyBag(ops, Kept(bag, op) + multiset(AfterDown(down, op)))
  {
    ApplyFirst(op, ops, bag + multiset(down));
    HeadBag(down);
    match op
    case Delete(d) => assert bag + multiset(down) - multiset{d} == bag + multiset(down[1..]);
    case Insert(u) => assert bag + multiset(down) + multiset{u} == bag + multiset{u} + multiset(down);
    case Replace(u, d) => assert bag + multiset(down) + multiset{u} == bag + multiset{u} + multiset{d} + multiset(down[1..]);
  }

  lemma {:induction false} StaleStep(op: Op, ops: seq<Op>, bag: multiset<Row>, up: seq<Row>, down: seq<Row>)
    requires up != [] && down != [] && (op == Delete(down[0]) || op == Insert(up[0]) || op == Replace(up[0], down[0]))
    ensures Kept(bag, op) + multiset(AfterUp(up, op)) + Stale(ops) == bag + multiset(up) + Stale([op] + ops)
  {
    ApplyFirst(op, ops, bag);
    HeadBag(up);
    var rest, stale := multiset(up[1..]), Stale(ops);
    match op
    case Delete(_) =>
      assert multiset{} + stale == stale;
    case Insert(u) =>
      assert multiset{} + stale == stale;
      assert bag + multiset{u} + rest == bag + (multiset{u} + rest);
    case Replace(u, d) =>
      assert bag + multiset{u} + multiset{d} + rest + stale == bag + (multiset{u} + rest) + (multiset{d} + stale);
  }

  /**
   * Without a unique key, for any two streams: the statements turn the downstream rows into the upstream rows plus
   * the downstream rows that a replace was meant to write over, which stay.
   */
  lemma {:induction false} BagLaw(l: Layout, up: seq<Row>, down: seq<Row>, bag: multiset<Row>)
    requires Rows(l, up, down) && ExactColumns(l)
    ensures ApplyBag(Merge(l, up, down), bag + multiset(down)) == bag + multiset(up) + Stale(Merge(l, up, down))
    decreases |up| + |down|
  {
    MergeUnfold(l, up, down);
    if up == [] {
      BagDeletes(down, bag);
      assert bag + multiset(up) + multiset{} == bag;
    } else if down == [] {
      BagInserts(up, bag + multiset(down));
      assert bag + multiset(down) == bag;
      assert bag + multiset(up) + multiset{} == bag + multiset(up);
    } else if Same(l, up[0], down[0]) {
      SameIsEqual(l, up[0], down[0]);
      BagLaw(l, up[1..], down[1..], bag + multiset{up[0]});
      HeadMoves(up, bag);
      HeadMoves(down, bag);
    } else {
      var op := OpFor(l, up[0], down[0]);
      var up', down' := AfterUp(up, op), AfterDown(down, op);
      var ops := Merge(l, up', down');
      BagLaw(l, up', down', Kept(bag, op));
      BagStep(op, ops, bag, up, down);
      StaleStep(op, ops, bag, up, down);
    }
  }

  lemma {:induction false} HeadMoves(rows: seq<Row>, bag: multiset<Row>)
    requires rows != []
    ensures bag + multiset(rows) == bag + multiset{rows[0]} + multiset(rows[1..])
  {
    HeadBag(rows);
  }

  predicate NoReplace(ops: seq<Op>) {
    forall i :: 0 <= i < |ops| ==> !ops[i].Replace?
  }

  lemma {:induction false} StaleEmpty(ops: seq<Op>)
    ensures Stale(ops) == multiset{} <==> NoReplace(ops)
  {
    if ops != [] {
      StaleEmpty(ops[1..]);
      if ops[0].Replace? {
        assert ops[0].over in Stale(ops);
      } else {
        assert NoReplace(ops) <==> NoReplace(ops[1..]) by {
          assert forall i :: 0 < i < |ops| ==> ops[i] == ops[1..][i - 1];
        }
        assert multiset{} + Stale(ops[1..]) == Stale(ops[1..]);
      }
    }
  }

  // ---------- When a replace is emitted ----------

  /** The walk never gets to two different rows of one position. */
  ghost predicate NoSwap(l: Layout, up: seq<Row>, down: seq<Row>)
    requires Rows(l, up, down)
  {
    forall i: nat, j: nat :: !At(l, up, down, i, j, Swap)
  }

  lemma {:induction false} NoSwapStep(l: Layout, up: seq<Row>, down: seq<Row>)
    requires Rows(l, up, down) && (up != [] || down != [])
    ensures NoSwap(l, up, down) <==> TurnOf(l, up, down) != Swap && NoSwap(l, RestUp(l, up, down), RestDown(l, up, down))
  {
    var turn, up', down' := TurnOf(l, up, down), RestUp(l, up, down), RestDown(l, up, down);
    AtHead(l, up, down, 0, 0, Swap);
    if NoSwap(l, up, down) {
      forall i: nat, j: nat
        ensures !At(l, up', down', i, j, Swap)
      {
        if At(l, up', down', i, j, Swap) {
          AtBack(l, up, down, turn, up', down', i, j, Swap);
        }
      }
    }
    if turn != Swap && NoSwap(l, up', down') {
      forall i: nat, j: nat
        ensures !At(l, up, down, i, j, Swap)
      {
        if i > 0 || j > 0 {
          AtRest(l, up, down, i, j, Swap);
        }
      }
    }
  }

  lemma {:induction false} NoReplaceFirst(op: Op, ops: seq<Op>)
    ensures NoReplace([op] + ops) <==> !op.Replace? && NoReplace(ops)
  {
    var all := [op] + ops;
    assert all[0] == op && forall i :: 0 <= i < |ops| ==> all[i + 1] == ops[i];
    if NoReplace(all) {
      forall i | 0 <= i < |ops|
        ensures !ops[i].Replace?
      {
        assert !all[i + 1].Replace?;
      }
    }
  }

  /** No replace is emitted if and only if the walk gets to no two different rows of one position. */
  lemma {:induction false} NoReplaceIff(l: Layout, up: seq<Row>, down: seq<Row>)
    requires Rows(l, up, down)
    ensures NoReplace(Merge(l, up, down)) <==> NoSwap(l, up, down)
    decreases |up| + |down|
  {
    if up == [] && down == [] {
      MergeNothing(l);
    } else {
      var rest := Merge(l, RestUp(l, up, down), RestDown(l, up, down));
      RestShorter(l, up, down);
      NoReplaceIff(l, RestUp(l, up, down), RestDown(l, up, down));
      MergeTurn(l, up, down);
      NoSwapStep(l, up, down);
      NoReplaceTurn(OpsOf(l, up, down), rest);
    }
  }

  lemma {:induction false} NoReplaceTurn(first: seq<Op>, rest: seq<Op>)
    requires |first| <= 1
    ensures NoReplace(first + rest) <==> (first == [] || !first[0].Replace?) && NoReplace(rest)
  {
    if first == [] {
      assert first + rest == rest;
    } else {
      assert first == [first[0]];
      NoReplaceFirst(first[0], rest);
    }
  }

  /**
   * Without a unique key, for any two streams: the repair gives exactly the upstream rows if and only if the walk gets to
   * no two different rows of one position.
   */
  lemma {:induction false} BagRepair(l: Layout, up: seq<Row>, down: seq<Row>)
    requires Rows(l, up, down) && ExactColumns(l)
    ensures ApplyBag(Merge(l, up, down), multiset(down)) == multiset(up) <==> NoSwap(l, up, down)
  {
    BagRepairOps(l, up, down);
    NoReplaceIff(l, up, down);
  }

  lemma {:induction false} BagRepairOps(l: Layout, up: seq<Row>, down: seq<Row>)
    requires Rows(l, up, down) && ExactColumns(l)
    ensures ApplyBag(Merge(l, up, down), multiset(down)) == multiset(up) <==> NoReplace(Merge(l, up, down))
  {
    var ops := Merge(l, up, down);
    BagLaw(l, up, down, multiset{});
    assert multiset{} + multiset(down) == multiset(down);
    assert multiset{} + multiset(up) == multiset(up);
    StaleEmpty(ops);
    var up', stale := multiset(up), Stale(ops);
    if up' + stale == up' {
      RowMerge.Cancel(stale, multiset{}, up');
    }
    assert up' + multiset{} == up';
  }

  /** The order key tells all rows apart. */
  predicate KeyDecides(l: Layout, up: seq<Row>, down: seq<Row>)
    requires Rows(l, up, down)
  {
    forall i, j :: 0 <= i < |up| && 0 <= j < |down| && Cmp(l, up[i], down[j]) == 0 ==> Same(l, up[i], down[j])
  }

  /** Then no replace is emitted. */
  lemma {:induction false} KeyDecidesNoReplace(l: Layout, up: seq<Row>, down: seq<Row>)
    requires Rows(l, up, down) && KeyDecides(l, up, down)
    ensures NoReplace(Merge(l, up, down))
  {
    NoReplaceIff(l, up, down);
    forall i: nat, j: nat
      ensures !At(l, up, down, i, j, Swap)
    {
      if i < |up| && j < |down| {
        assert up[i..][0] == up[i] && down[j..][0] == down[j];
        CmpPreorder(l, up[i], down[j], down[j]);
      }
    }
  }

  /** Two integers beyond 2^53 are one float: a row with one of them is left beside the row with the other. */
  lemma {:induction false} BigIntegersStay()
    ensures var l := Layout([Column(Plain, false, 0.0)], [0]);
            var u, d := [Some(Keys.Value("9007199254740993", 9007199254740992.0))], [Some(Keys.Value("9007199254740992", 9007199254740992.0))];
            && Rows(l, [u], [d]) && ExactColumns(l) && At(l, [u], [d], 0, 0, Swap)
            && Merge(l, [u], [d]) == [Replace(u, d)] && ApplyBag(Merge(l, [u], [d]), multiset{d}) == multiset{u, d}
  {
    var l := Layout([Column(Plain, false, 0.0)], [0]);
    var u, d := [Some(Keys.Value("9007199254740993", 9007199254740992.0))], [Some(Keys.Value("9007199254740992", 9007199254740992.0))];
    assert !SameCell(l.columns[0], u[0], d[0]);
    assert Lex(KeyOrder, l, l.keys[1..], u, d) == 0;
    assert Cmp(l, u, d) == 0;
    OneReplaced(l, u, d);
    AtHead(l, [u], [d], 0, 0, Swap);
    ApplyFirst(Replace(u, d), [], multiset{d});
    assert [Replace(u, d)] == [Replace(u, d)] + [];
  }

  /** No difference is reported if and only if the streams agree row by row. */
  lemma {:induction false} EqualIff(l: Layout, up: seq<Row>, down: seq<Row>)
    requires Rows(l, up, down)
    ensures Merge(l, up, down) == [] <==> |up| == |down| && forall i :: 0 <= i < |up| ==> Same(l, up[i], down[i])
    decreases |up| + |down|
  {
    MergeUnfold(l, up, down);
    if up != [] && down != [] && Same(l, up[0], down[0]) {
      EqualIff(l, up[1..], down[1..]);
      if |up| == |down| && forall i :: 0 <= i < |up[1..]| ==> Same(l, up[1..][i], down[1..][i]) {
        forall i | 0 <= i < |up|
          ensures Same(l, up[i], down[i])
        {
          if i > 0 {
            assert Same(l, up[1..][i - 1], down[1..][i - 1]);
          }
        }
      }
    }
  }

  // ---------- Counts ----------

  /** The upstream rows that are written, and the downstream rows that are deleted or written over. */
  function Writes(ops: seq<Op>): multiset<Row> {
    if ops == [] then multiset{} else (if ops[0].Delete? then multiset{} else multiset{ops[0].row}) + Writes(ops[1..])
  }

  function Removes(ops: seq<Op>): multiset<Row> {
    if ops == [] then multiset{}
    else (match ops[0]
          case Delete(r) => multiset{r}
          case Insert(_) => multiset{}
          case Replace(_, over) => multiset{over}) + Removes(ops[1..])
  }

  lemma {:induction false} WritesFirst(op: Op, ops: seq<Op>)
    ensures Writes([op] + ops) == (if op.Delete? then multiset{} else multiset{op.row}) + Writes(ops)
    ensures Removes([op] + ops) == (match op case Delete(r) => multiset{r} case Insert(_) => multiset{} case Replace(_, over) => multiset{over}) + Removes(ops)
  {
    assert ([op] + ops)[1..] == ops;
  }

  lemma {:induction false} CountsAreSizes(ops: seq<Op>)
    ensures Adds(ops) == |Writes(ops)| && Dels(ops) == |Removes(ops)|
  {
    if ops != [] {
      CountsAreSizes(ops[1..]);
    }
  }

  lemma {:induction false} DeletesOnly(down: seq<Row>)
    ensures Writes(Deletes(down)) == multiset{} && Removes(Deletes(down)) == multiset(down)
  {
    if down != [] {
      assert Deletes(down) == [Delete(down[0])] + Deletes(down[1..]);
      WritesFirst(Delete(down[0]), Deletes(down[1..]));
      DeletesOnly(down[1..]);
      HeadBag(down);
    }
  }

  lemma {:induction false} InsertsOnly(up: seq<Row>)
    ensures Writes(Inserts(up)) == multiset(up) && Removes(Inserts(up)) == multiset{}
  {
    if up != [] {
      assert Inserts(up) == [Insert(up[0])] + Inserts(up[1..]);
      WritesFirst(Insert(up[0]), Inserts(up[1..]));
      InsertsOnly(up[1..]);
      HeadBag(up);
    }
  }

  /** The rows that both sides keep. */
  function Common(l: Layout, up: seq<Row>, down: seq<Row>): multiset<Row>
    requires Rows(l, up, down)
    decreases |up| + |down|
  {
    if up == [] || down == [] then multiset{}
    else if Same(l, up[0], down[0]) then multiset{up[0]} + Common(l, up[1..], down[1..])
    else
      var op := OpFor(l, up[0], down[0]);
      Common(l, AfterUp(up, op), AfterDown(down, op))
  }

  lemma {:induction false} Gather(x: multiset<Row>, a: multiset<Row>, b: multiset<Row>)
    ensures a + (x + b) == x + (a + b) && (x + a) + b == x + (a + b)
  {
  }

  /** Each side is what both keep and what is written or removed. */
  lemma {:induction false} Accounts(l: Layout, up: seq<Row>, down: seq<Row>)
    requires Rows(l, up, down) && ExactColumns(l)
    ensures multiset(up) == Common(l, up, down) + Writes(Merge(l, up, down))
    ensures multiset(down) == Common(l, up, down) + Removes(Merge(l, up, down))
    decreases |up| + |down|
  {
    MergeUnfold(l, up, down);
    if up == [] {
      DeletesOnly(down);
    } else if down == [] {
      InsertsOnly(up);
    } else if Same(l, up[0], down[0]) {
      SameIsEqual(l, up[0], down[0]);
      Accounts(l, up[1..], down[1..]);
      HeadBag(up);
      HeadBag(down);
      Gather(multiset{up[0]}, Common(l, up[1..], down[1..]), Writes(Merge(l, up, down)));
      Gather(multiset{up[0]}, Common(l, up[1..], down[1..]), Removes(Merge(l, up, down)));
    } else {
      AccountsDiffers(l, up, down);
    }
  }

  lemma {:induction false} AccountsDiffers(l: Layout, up: seq<Row>, down: seq<Row>)
    requires Rows(l, up, down) && ExactColumns(l) && up != [] && down != [] && !Same(l, up[0], down[0])
    ensures multiset(up) == Common(l, up, down) + Writes(Merge(l, up, down))
    ensures multiset(down) == Common(l, up, down) + Removes(Merge(l, up, down))
    decreases |up| + |down|, 0
  {
    var op := OpFor(l, up[0], down[0]);
    MergeUnfold(l, up, down);
    Accounts(l, AfterUp(up, op), AfterDown(down, op));
    AccountsStep(up, down, op, Merge(l, AfterUp(up, op), AfterDown(down, op)), Common(l, up, down));
  }

  lemma {:induction false} AccountsStep(up: seq<Row>, down: seq<Row>, op: Op, rest: seq<Op>, common: multiset<Row>)
    requires up != [] && down != [] && (op == Delete(down[0]) || op == Insert(up[0]) || op == Replace(up[0], down[0]))
    requires multiset(AfterUp(up, op)) == common + Writes(rest) && multiset(AfterDown(down, op)) == common + Removes(rest)
    ensures multiset(up) == common + Writes([op] + rest) && multiset(down) == common + Removes([op] + rest)
  {
    WritesFirst(op, rest);
    OneMore(up, op, !op.Delete?, common, Writes(rest), AfterUp(up, op));
    OneMore(down, op, !op.Insert?, common, Removes(rest), AfterDown(down, op));
  }

  /** A row that is dealt with joins the rows that are. */
  lemma {:induction false} OneMore(rows: seq<Row>, op: Op, taken: bool, common: multiset<Row>, dealt: multiset<Row>, rest: seq<Row>)
    requires rows != [] && multiset(rest) == common + dealt && rest == if taken then rows[1..] else rows
    ensures multiset(rows) == common + ((if taken then multiset{rows[0]} else multiset{}) + dealt)
  {
    HeadBag(rows);
    if taken {
      Gather(multiset{rows[0]}, common, dealt);
    } else {
      assert multiset{} + dealt == dealt;
    }
  }

  lemma {:induction false} MinusCommon(common: multiset<Row>, a: multiset<Row>, b: multiset<Row>)
    ensures (common + a) - (common + b) == a - b
  {
  }

  /** Taking rows away leaves the size exactly when none was there. */
  lemma {:induction false} MinusSize(a: multiset<Row>, b: multiset<Row>)
    ensures |a - b| == |a| <==> forall r :: r in a ==> r !in b
  {
    var both := a * b;
    assert a == (a - b) + both;
    assert |a| == |a - b| + |both|;
    if both == multiset{} {
      forall r | r in a
        ensures r !in b
      {
        assert r !in both;
      }
    } else {
      var r :| r in both;
      assert r in a && r in b;
    }
  }

  /** The upstream row is matched by a downstream row, and the downstream row by an upstream one. */
  ghost predicate UpMet(l: Layout, up: seq<Row>, down: seq<Row>, i: nat)
    requires Rows(l, up, down)
  {
    exists j: nat :: At(l, up, down, i, j, Match)
  }

  ghost predicate DownMet(l: Layout, up: seq<Row>, down: seq<Row>, j: nat)
    requires Rows(l, up, down)
  {
    exists i: nat :: At(l, up, down, i, j, Match)
  }

  /** Of one stream, the positions that are matched. */
  ghost function UpMatched(l: Layout, up: seq<Row>, down: seq<Row>): (m: set<nat>)
    requires Rows(l, up, down)
    ensures forall i: nat :: i in m <==> i < |up| && UpMet(l, up, down, i)
  {
    set i: nat | i < |up| && UpMet(l, up, down, i)
  }

  ghost function DownMatched(l: Layout, up: seq<Row>, down: seq<Row>): (m: set<nat>)
    requires Rows(l, up, down)
    ensures forall j: nat :: j in m <==> j < |down| && DownMet(l, up, down, j)
  {
    set j: nat | j < |down| && DownMet(l, up, down, j)
  }

  /** Some copy of a row is at another position. */
  predicate Outside(rows: seq<Row>, positions: set<nat>, r: Row) {
    exists i: nat :: i < |rows| && rows[i] == r && i !in positions
  }

  /** The same for a stream without its head, if that is taken. */
  lemma {:induction false} OutsideRest(rows: seq<Row>, rest: seq<Row>, taken: bool, p: set<nat>, p': set<nat>, r: Row)
    requires (taken ==> rows != []) && rest == if taken then rows[1..] else rows
    requires forall i: nat :: i < |rest| ==> (i in p' <==> (if taken then i + 1 else i) in p)
    ensures Outside(rows, p, r) <==> (taken && rows[0] == r && 0 !in p) || Outside(rest, p', r)
  {
    if i: nat :| i < |rows| && rows[i] == r && i !in p {
      if !taken {
        assert rest[i] == r;
      } else if i > 0 {
        assert rest[i - 1] == r;
      }
    }
    if i: nat :| i < |rest| && rest[i] == r && i !in p' {
      assert rows[if taken then i + 1 else i] == r;
    }
  }

  lemma {:induction false} UpMetStep(l: Layout, up: seq<Row>, down: seq<Row>, i: nat)
    requires Rows(l, up, down) && i < |up|
    ensures var turn := TurnOf(l, up, down);
            UpMet(l, up, down, i) <==>
            if turn == Drop then UpMet(l, RestUp(l, up, down), RestDown(l, up, down), i)
            else if i == 0 then turn == Match
            else UpMet(l, RestUp(l, up, down), RestDown(l, up, down), i - 1)
  {
    var turn, up', down' := TurnOf(l, up, down), RestUp(l, up, down), RestDown(l, up, down);
    AtHead(l, up, down, 0, 0, Match);
    if UpMet(l, up, down, i) {
      UpMetRest(l, up, down, up', down', turn, i);
    }
    if turn == Drop || i > 0 {
      var i' := if turn == Drop then i else i - 1;
      if UpMet(l, up', down', i') {
        UpMetBack(l, up, down, up', down', turn, i', i);
      }
    }
  }

  lemma {:induction false} UpMetRest(l: Layout, up: seq<Row>, down: seq<Row>, up': seq<Row>, down': seq<Row>, turn: Turn, i: nat)
    requires Rows(l, up, down) && i < |up| && turn == TurnOf(l, up, down) && up' == RestUp(l, up, down) && down' == RestDown(l, up, down)
    requires UpMet(l, up, down, i)
    ensures if i == 0 && turn != Drop then turn == Match else UpMet(l, up', down', if turn == Drop then i else i - 1)
  {
    var j: nat :| At(l, up, down, i, j, Match);
    AtHead(l, up, down, i, j, Match);
    if i > 0 || j > 0 {
      AtRest(l, up, down, i, j, Match);
    }
  }

  lemma {:induction false} UpMetBack(l: Layout, up: seq<Row>, down: seq<Row>, up': seq<Row>, down': seq<Row>, turn: Turn, i': nat, i: nat)
    requires Rows(l, up, down) && i < |up| && turn == TurnOf(l, up, down) && up' == RestUp(l, up, down) && down' == RestDown(l, up, down)
    requires i == (if turn == Drop then i' else i' + 1) && UpMet(l, up', down', i')
    ensures UpMet(l, up, down, i)
  {
    var j: nat :| At(l, up', down', i', j, Match);
    AtBack(l, up, down, turn, up', down', i', j, Match);
  }

  lemma {:induction false} DownMetStep(l: Layout, up: seq<Row>, down: seq<Row>, j: nat)
    requires Rows(l, up, down) && j < |down|
    ensures var turn := TurnOf(l, up, down);
            DownMet(l, up, down, j) <==>
            if turn == Add then DownMet(l, RestUp(l, up, down), RestDown(l, up, down), j)
            else if j == 0 then turn == Match
            else DownMet(l, RestUp(l, up, down), RestDown(l, up, down), j - 1)
  {
    var turn, up', down' := TurnOf(l, up, down), RestUp(l, up, down), RestDown(l, up, down);
    AtHead(l, up, down, 0, 0, Match);
    if DownMet(l, up, down, j) {
      DownMetRest(l, up, down, up', down', turn, j);
    }
    if turn == Add || j > 0 {
      var j' := if turn == Add then j else j - 1;
      if DownMet(l, up', down', j') {
        DownMetBack(l, up, down, up', down', turn, j', j);
      }
    }
  }

  lemma {:induction false} DownMetRest(l: Layout, up: seq<Row>, down: seq<Row>, up': seq<Row>, down': seq<Row>, turn: Turn, j: nat)
    requires Rows(l, up, down) && j < |down| && turn == TurnOf(l, up, down) && up' == RestUp(l, up, down) && down' == RestDown(l, up, down)
    requires DownMet(l, up, down, j)
    ensures if j == 0 && turn != Add then turn == Match else DownMet(l, up', down', if turn == Add then j else j - 1)
  {
    var i: nat :| At(l, up, down, i, j, Match);
    AtHead(l, up, down, i, j, Match);
    if i > 0 || j > 0 {
      AtRest(l, up, down, i, j, Match);
    }
  }

  lemma {:induction false} DownMetBack(l: Layout, up: seq<Row>, down: seq<Row>, up': seq<Row>, down': seq<Row>, turn: Turn, j': nat, j: nat)
    requires Rows(l, up, down) && j < |down| && turn == TurnOf(l, up, down) && up' == RestUp(l, up, down) && down' == RestDown(l, up, down)
    requires j == (if turn == Add then j' else j' + 1) && DownMet(l, up', down', j')
    ensures DownMet(l, up, down, j)
  {
    var i: nat :| At(l, up', down', i, j', Match);
    AtBack(l, up, down, turn, up', down', i, j', Match);
  }

  lemma {:induction false} UpOutsideStep(l: Layout, up: seq<Row>, down: seq<Row>, r: Row, turn: Turn, up': seq<Row>, down': seq<Row>)
    requires Rows(l, up, down) && (up != [] || down != [])
    requires turn == TurnOf(l, up, down) && up' == RestUp(l, up, down) && down' == RestDown(l, up, down)
    ensures Outside(up, UpMatched(l, up, down), r) <==>
            ((turn == Add || turn == Swap) && up[0] == r) || Outside(up', UpMatched(l, up', down'), r)
  {
    if up != [] {
      UpMetStep(l, up, down, 0);
    }
    forall i: nat | i < |up'|
      ensures UpMet(l, up', down', i) <==> UpMet(l, up, down, if turn != Drop then i + 1 else i)
    {
      UpMetStep(l, up, down, if turn != Drop then i + 1 else i);
    }
    OutsideRest(up, up', turn != Drop, UpMatched(l, up, down), UpMatched(l, up', down'), r);
  }

  lemma {:induction false} DownOutsideStep(l: Layout, up: seq<Row>, down: seq<Row>, r: Row, turn: Turn, up': seq<Row>, down': seq<Row>)
    requires Rows(l, up, down) && (up != [] || down != [])
    requires turn == TurnOf(l, up, down) && up' == RestUp(l, up, down) && down' == RestDown(l, up, down)
    ensures Outside(down, DownMatched(l, up, down), r) <==>
            ((turn == Drop || turn == Swap) && down[0] == r) || Outside(down', DownMatched(l, up', down'), r)
  {
    if down != [] {
      DownMetStep(l, up, down, 0);
    }
    forall j: nat | j < |down'|
      ensures DownMet(l, up', down', j) <==> DownMet(l, up, down, if turn != Add then j + 1 else j)
    {
      DownMetStep(l, up, down, if turn != Add then j + 1 else j);
    }
    OutsideRest(down, down', turn != Add, DownMatched(l, up, down), DownMatched(l, up', down'), r);
  }

  lemma {:induction false} WritesTurn(first: seq<Op>, rest: seq<Op>)
    requires |first| <= 1
    ensures Writes(first + rest) == (if first == [] || first[0].Delete? then multiset{} else multiset{first[0].row}) + Writes(rest)
    ensures Removes(first + rest) ==
            (if first == [] || first[0].Insert? then multiset{} else multiset{if first[0].Delete? then first[0].row else first[0].over}) + Removes(rest)
  {
    if first == [] {
      assert first + rest == rest;
    } else {
      assert first == [first[0]];
      WritesFirst(first[0], rest);
    }
  }

  /** What is written are the upstream rows that are not matched, what is removed the downstream ones. */
  lemma {:induction false} Deals(l: Layout, up: seq<Row>, down: seq<Row>, r: Row)
    requires Rows(l, up, down)
    ensures r in Writes(Merge(l, up, down)) <==> Outside(up, UpMatched(l, up, down), r)
    ensures r in Removes(Merge(l, up, down)) <==> Outside(down, DownMatched(l, up, down), r)
    decreases |up| + |down|
  {
    if up == [] && down == [] {
      MergeNothing(l);
    } else {
      RestShorter(l, up, down);
      Deals(l, RestUp(l, up, down), RestDown(l, up, down), r);
      MergeTurn(l, up, down);
      WritesTurn(OpsOf(l, up, down), Merge(l, RestUp(l, up, down), RestDown(l, up, down)));
      UpOutsideStep(l, up, down, r, TurnOf(l, up, down), RestUp(l, up, down), RestDown(l, up, down));
      DownOutsideStep(l, up, down, r, TurnOf(l, up, down), RestUp(l, up, down), RestDown(l, up, down));
    }
  }

  /** A row that both streams have, each without a match for it. */
  ghost predicate Displaced(l: Layout, up: seq<Row>, down: seq<Row>, r: Row)
    requires Rows(l, up, down)
  {
    Outside(up, UpMatched(l, up, down), r) && Outside(down, DownMatched(l, up, down), r)
  }

  /**
   * For any two streams: each of the two counts is the size of the difference, rows only upstream or rows only downstream,
   * if and only if no row is displaced.
   */
  lemma {:induction false} CountsAreDifferences(l: Layout, up: seq<Row>, down: seq<Row>)
    requires Rows(l, up, down) && ExactColumns(l)
    ensures Adds(Merge(l, up, down)) == |multiset(up) - multiset(down)| <==> forall r: Row :: !Displaced(l, up, down, r)
    ensures Dels(Merge(l, up, down)) == |multiset(down) - multiset(up)| <==> forall r: Row :: !Displaced(l, up, down, r)
  {
    var ops, common := Merge(l, up, down), Common(l, up, down);
    CountsAreSizes(ops);
    Accounts(l, up, down);
    MinusCommon(common, Writes(ops), Removes(ops));
    MinusCommon(common, Removes(ops), Writes(ops));
    MinusSize(Writes(ops), Removes(ops));
    MinusSize(Removes(ops), Writes(ops));
    forall r: Row
      ensures Displaced(l, up, down, r) <==> r in Writes(ops) && r in Removes(ops)
    {
      Deals(l, up, down, r);
    }
  }

  lemma {:induction false} OneReplaced(l: Layout, a: Row, b: Row)
    requires LayoutOk(l) && RowOk(l, a) && RowOk(l, b) && !Same(l, a, b) && Cmp(l, a, b) == 0
    ensures Merge(l, [a], [b]) == [Replace(a, b)]
  {
    MergeUnfold(l, [a], [b]);
    assert [a][1..] == [] && [b][1..] == [];
  }

  /** Two rows of one position in exchanged order are counted as two differences each way, and there is none. */
  lemma {:induction false} ExchangedCounts(l: Layout, a: Row, b: Row)
    requires LayoutOk(l) && RowOk(l, a) && RowOk(l, b) && ExactColumns(l) && a != b && Cmp(l, a, b) == 0
    ensures Rows(l, [a, b], [b, a]) && Adds(Merge(l, [a, b], [b, a])) == Dels(Merge(l, [a, b], [b, a])) == 2
    ensures multiset([a, b]) == multiset([b, a])
  {
    SameIsEqual(l, a, b);
    SameIsEqual(l, b, a);
    CmpPreorder(l, a, b, b);
    OneReplaced(l, b, a);
    assert [a, b][1..] == [b] && [b, a][1..] == [a];
    MergeUnfold(l, [a, b], [b, a]);
    CountsOne([Replace(a, b)], Replace(b, a));
  }

  // ---------- Statements that are not generated ----------

  /**
   * With export switched off the list of statements is not empty if and only if a difference was met while both streams
   * had rows; its entries are empty, and a fix file without a statement is written.
   */
  lemma {:induction false} BlankStatements(l: Layout, up: seq<Row>, down: seq<Row>)
    requires Rows(l, up, down)
    ensures Statements(l, up, down, false) != [] <==> Both(l, up, down) != []
    ensures forall i :: 0 <= i < |Statements(l, up, down, false)| ==> Statements(l, up, down, false)[i] == Blank
    ensures Statements(l, up, down, true) == [] <==> Merge(l, up, down) == []
  {
  }
}
