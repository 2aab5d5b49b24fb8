/**
 * The repair of a table with a unique key, for streams as tables give them: in order, and each key once; and what the
 * repaired table then holds.
 */
module KeyedStreams {
  import opened Wrappers
  import Keys
  import opened RowOrder
  import opened RowMerge
  import opened CompareRows
  import opened Turns
  import opened Repair
  import opened SortedStreams
  import opened KeyedRepair

  // ---------- Each key once on either side ----------

  /** Every downstream row that another one is written over has the key of some upstream row. */
  ghost predicate SwapsTouched(l: Layout, up: seq<Row>, down: seq<Row>)
    requires Rows(l, up, down)
  {
    forall i: nat, j: nat :: j < |down| && At(l, up, down, i, j, Swap) ==> Touched(l, up, down[j])
  }

  /** No row is deleted that the walk has already passed upstream. */
  ghost predicate DropsNew(l: Layout, up: seq<Row>, down: seq<Row>)
    requires Rows(l, up, down)
  {
    forall i: nat, j: nat :: j < |down| && At(l, up, down, i, j, Drop) && Keyed(l, down[j]) ==> down[j] !in up[..i]
  }

  lemma {:induction false} TouchedSplit(l: Layout, up: seq<Row>, i: nat, d: Row)
    requires i <= |up|
    ensures Touched(l, up, d) <==> Touched(l, up[..i], d) || Touched(l, up[i..], d)
  {
    var before, behind := up[..i], up[i..];
    if k :| 0 <= k < |up| && Clash(l, up[k], d) {
      if k < i {
        assert Clash(l, before[k], d);
      } else {
        assert Clash(l, behind[k - i], d);
      }
    }
    if k :| 0 <= k < |before| && Clash(l, before[k], d) {
      assert Clash(l, up[k], d);
    }
    if k :| 0 <= k < |behind| && Clash(l, behind[k], d) {
      assert Clash(l, up[i + k], d);
    }
  }

  /** A replace breaks a key if and only if that key is nowhere upstream. */
  lemma {:induction false} SwapFails(l: Layout, up: seq<Row>, down: seq<Row>, i: nat, j: nat)
    requires Rows(l, up, down) && j < |down| && At(l, up, down, i, j, Swap)
    ensures Fails(l, up, down, i, j, Swap) <==> !Touched(l, up, down[j])
  {
    TouchedSplit(l, up, i, down[j]);
    LastKeyTouched(l, up[..i], down[j]);
  }

  lemma {:induction false} UniqueSplit(l: Layout, up: seq<Row>, i: nat, d: Row)
    requires Unique(l, up) && i <= |up|
    ensures !(Touched(l, up[..i], d) && Touched(l, up[i..], d))
  {
    var before, behind := up[..i], up[i..];
    if k :| 0 <= k < |before| && Clash(l, before[k], d) {
      NoOther(l, up, k, d);
      forall m | 0 <= m < |behind|
        ensures !Clash(l, behind[m], d)
      {
        assert behind[m] == up[i + m];
      }
    }
  }

  /** With one row per key, the last row with the key of a keyed row is that row if and only if the row is there. */
  lemma {:induction false} UniqueLast(l: Layout, rows: seq<Row>, d: Row)
    requires Unique(l, rows)
    ensures LastKey(l, rows, d) == Some(d) <==> d in rows && Keyed(l, d)
  {
    if rows != [] {
      UniqueLast(l, rows[1..], d);
      LastKeyTouched(l, rows[1..], d);
      ClashSelf(l, d);
      if Clash(l, rows[0], d) {
        NoOther(l, rows, 0, d);
      }
      assert d in rows <==> d == rows[0] || d in rows[1..];
      LastKeyTouched(l, rows, d);
    }
  }

  lemma {:induction false} UniquePrefix(l: Layout, rows: seq<Row>, i: nat)
    requires Unique(l, rows) && i <= |rows|
    ensures Unique(l, rows[..i])
  {
  }

  /** A delete breaks a key if and only if the walk has passed the same row upstream. */
  lemma {:induction false} DropFails(l: Layout, up: seq<Row>, down: seq<Row>, i: nat, j: nat)
    requires Rows(l, up, down) && Unique(l, up) && j < |down| && At(l, up, down, i, j, Drop)
    ensures Fails(l, up, down, i, j, Drop) <==> down[j] in up[..i] && Keyed(l, down[j])
  {
    UniquePrefix(l, up, i);
    UniqueLast(l, up[..i], down[j]);
    UniqueSplit(l, up, i, down[j]);
    LastKeyTouched(l, up[..i], down[j]);
  }

  lemma {:induction false} ClashKeyed(l: Layout, a: Row, d: Row)
    requires Clash(l, a, d)
    ensures Keyed(l, d)
  {
  }

  /** A match breaks none. */
  lemma {:induction false} MatchHolds(l: Layout, up: seq<Row>, down: seq<Row>, i: nat, j: nat)
    requires Rows(l, up, down) && ExactKeys(l) && Unique(l, up)
    ensures !Fails(l, up, down, i, j, Match)
  {
    if j < |down| && At(l, up, down, i, j, Match) {
      var d, later := down[j], up[i..];
      LastKeyTouched(l, up[..i], d);
      UniqueSplit(l, up, i, d);
      assert down[j..][0] == d && later[0] == up[i];
      SameClash(l, up[i], d, d);
      ClashSelf(l, d);
      if LastKey(l, up[..i], d).Some? {
        ClashKeyed(l, LastKey(l, up[..i], d).value, d);
        TouchedHead(l, later, d);
      }
    }
  }

  /**
   * Two tables with a unique key, in any order of the rows: the repair leaves exactly the upstream rows if and only if each
   * downstream row that is written over has the key of an upstream row, and no row is deleted downstream that was already
   * passed upstream.
   */
  lemma {:induction false} UniqueRepairs(l: Layout, up: seq<Row>, down: seq<Row>)
    requires Rows(l, up, down) && ExactColumns(l) && ExactKeys(l) && Unique(l, up) && Unique(l, down)
    ensures ApplyKeyed(l, Merge(l, up, down), multiset(down)) == multiset(up) <==> SwapsTouched(l, up, down) && DropsNew(l, up, down)
  {
    KeyedRepairs(l, up, down);
    FinalExact(l, up, down);
    LastOfUnique(l, up);
    NoFailureIff(l, up, down);
  }

  lemma {:induction false} NoFailureIff(l: Layout, up: seq<Row>, down: seq<Row>)
    requires Rows(l, up, down) && ExactKeys(l) && Unique(l, up)
    ensures NoFailure(l, up, down) <==> SwapsTouched(l, up, down) && DropsNew(l, up, down)
  {
    if NoFailure(l, up, down) {
      forall i: nat, j: nat | j < |down| && At(l, up, down, i, j, Swap)
        ensures Touched(l, up, down[j])
      {
        SwapFails(l, up, down, i, j);
      }
      forall i: nat, j: nat | j < |down| && At(l, up, down, i, j, Drop) && Keyed(l, down[j])
        ensures down[j] !in up[..i]
      {
        DropFails(l, up, down, i, j);
      }
    }
    if SwapsTouched(l, up, down) && DropsNew(l, up, down) {
      forall i: nat, j: nat, turn: Turn
        ensures !Fails(l, up, down, i, j, turn)
      {
        if Fails(l, up, down, i, j, turn) {
          TurnHolds(l, up, down, i, j, turn);
        }
      }
    }
  }

  lemma {:induction false} TurnHolds(l: Layout, up: seq<Row>, down: seq<Row>, i: nat, j: nat, turn: Turn)
    requires Rows(l, up, down) && ExactKeys(l) && Unique(l, up) && SwapsTouched(l, up, down) && DropsNew(l, up, down)
    ensures !Fails(l, up, down, i, j, turn)
  {
    match turn
    case Match => MatchHolds(l, up, down, i, j);
    case Drop =>
      if j < |down| && At(l, up, down, i, j, Drop) {
        DropFails(l, up, down, i, j);
      }
    case Swap =>
      if j < |down| && At(l, up, down, i, j, Swap) {
        SwapFails(l, up, down, i, j);
      }
    case Add =>
  }

  // ---------- Streams in order ----------

  /** In the key columns that are numbers, different values of these rows have different positions. */
  predicate RanksTell(l: Layout, rows: seq<Row>)
    requires LayoutOk(l) && RowsOk(l, rows)
  {
    forall a, b, i :: 0 <= a < |rows| && 0 <= b < |rows| && 0 <= i < |l.keys| ==>
      OneValue(l.columns[l.keys[i]], rows[a][l.keys[i]], rows[b][l.keys[i]])
  }

  predicate OneValue(c: Column, a: Cell, b: Cell) {
    !c.quoted && a.Some? && b.Some? && a.value.rank == b.value.rank ==> a == b
  }

  lemma {:induction false} LexZero(l: Layout, keys: seq<nat>, a: Row, b: Row)
    requires RowOk(l, a) && RowOk(l, b) && KeysIn(l, keys) && Lex(KeyOrder, l, keys, a, b) == 0
    requires forall i :: 0 <= i < |keys| ==> a[keys[i]].Some? && b[keys[i]].Some?
    ensures forall i :: 0 <= i < |keys| ==> a[keys[i]].value.rank == b[keys[i]].value.rank
  {
    if keys != [] {
      LexZero(l, keys[1..], a, b);
      assert forall i :: 0 < i < |keys| ==> keys[i] == keys[1..][i - 1];
    }
  }

  /** Then keyed rows at one position clash. */
  lemma {:induction false} PlaceIsKey(l: Layout, up: seq<Row>, down: seq<Row>, a: Row, b: Row)
    requires Rows(l, up, down) && RanksTell(l, up + down) && a in up + down && b in up + down
    requires Keyed(l, a) && Keyed(l, b) && Cmp(l, a, b) == 0
    ensures Clash(l, a, b)
  {
    var rows := up + down;
    var k :| 0 <= k < |rows| && rows[k] == a;
    var m :| 0 <= m < |rows| && rows[m] == b;
    LexZero(l, l.keys, a, b);
    forall i | 0 <= i < |l.keys|
      ensures KeyCell(l.columns[l.keys[i]], a[l.keys[i]], b[l.keys[i]])
    {
      assert OneValue(l.columns[l.keys[i]], rows[k][l.keys[i]], rows[m][l.keys[i]]);
    }
  }

  /** Every downstream row opposite a different upstream row has the key of some upstream row. */
  predicate Covered(l: Layout, up: seq<Row>, down: seq<Row>)
    requires Rows(l, up, down)
  {
    forall i, j :: 0 <= i < |up| && 0 <= j < |down| && Opposite(l, up, down, i, j) && !Same(l, up[i], down[j]) ==> Touched(l, up, down[j])
  }

  lemma {:induction false} CoveredSwaps(l: Layout, up: seq<Row>, down: seq<Row>)
    requires Rows(l, up, down) && ExactKeys(l) && Ascending(l, up) && Ascending(l, down)
    ensures Covered(l, up, down) <==> SwapsTouched(l, up, down)
  {
    if Covered(l, up, down) {
      forall i: nat, j: nat | j < |down| && At(l, up, down, i, j, Swap)
        ensures Touched(l, up, down[j])
      {
        AtOpposite(l, up, down, i, j);
      }
    }
    if SwapsTouched(l, up, down) {
      forall i, j | 0 <= i < |up| && 0 <= j < |down| && Opposite(l, up, down, i, j) && !Same(l, up[i], down[j])
        ensures Touched(l, up, down[j])
      {
        AtOpposite(l, up, down, i, j);
      }
    }
  }

  /** The turn in which the walk passed an upstream row. */
  lemma {:induction false} Passed(l: Layout, up: seq<Row>, down: seq<Row>, k: nat, i: nat, j: nat) returns (j': nat, turn: Turn)
    requires Rows(l, up, down) && k < i <= |up| && j <= |down| && Meets(l, up, down, i, j)
    ensures j' <= j && At(l, up, down, k, j', turn) && turn != Drop && (turn == Add || j' < j)
    decreases |up| + |down|
  {
    var first := TurnOf(l, up, down);
    if k == 0 && first != Drop {
      AtHead(l, up, down, 0, 0, first);
      j', turn := 0, first;
    } else {
      RestShorter(l, up, down);
      var behind;
      behind, turn := Passed(l, RestUp(l, up, down), RestDown(l, up, down), if first == Drop then k else k - 1,
                             if first == Drop then i else i - 1, if first == Add then j else j - 1);
      j' := if first == Add then behind else behind + 1;
      AtRest(l, up, down, k, j', turn);
    }
  }

  /** In covered streams no row is written before the walk gets to the downstream row with its key. */
  lemma {:induction false} NoPrior(l: Layout, up: seq<Row>, down: seq<Row>, i: nat, j: nat, turn: Turn)
    requires Rows(l, up, down) && ExactKeys(l) && Ascending(l, down) && Unique(l, down) && RanksTell(l, up + down)
    requires SwapsTouched(l, up, down) && j < |down| && At(l, up, down, i, j, turn)
    ensures !Touched(l, up[..i], down[j])
  {
    forall k | 0 <= k < |up[..i]|
      ensures !Clash(l, up[..i][k], down[j])
    {
      if Clash(l, up[k], down[j]) {
        var j', turn' := Passed(l, up, down, k, i, j);
        PassedBefore(l, up, down, k, j', turn', j);
      }
    }
  }

  lemma {:induction false} PassedBefore(l: Layout, up: seq<Row>, down: seq<Row>, k: nat, j': nat, turn: Turn, j: nat)
    requires Rows(l, up, down) && ExactKeys(l) && Ascending(l, down) && Unique(l, down) && RanksTell(l, up + down)
    requires SwapsTouched(l, up, down) && k < |up| && j' <= j < |down| && (turn == Add || j' < j)
    requires At(l, up, down, k, j', turn) && turn != Drop
    ensures !Clash(l, up[k], down[j])
  {
    var u, d, d' := up[k], down[j], down[j'];
    if Clash(l, u, d) {
      assert up[k..][0] == u && down[j'..][0] == d';
      ClashCmp(l, u, d);
      CmpPreorder(l, d', d, d);
      CmpPreorder(l, d', d, u);
      CmpPreorder(l, d, u, u);
      CmpPreorder(l, u, d', d);
      assert turn != Add;
      PassedPair(l, up, down, k, j', turn);
      CmpAlike(l, u, d', d);
      PlaceIsKey(l, up, down, d', d);
    }
  }

  /** Of a pair the walk matches or swaps, both rows are at one position, and if the upstream one has a key both have. */
  lemma {:induction false} PassedPair(l: Layout, up: seq<Row>, down: seq<Row>, k: nat, j': nat, turn: Turn)
    requires Rows(l, up, down) && ExactKeys(l) && SwapsTouched(l, up, down) && k < |up| && j' < |down|
    requires At(l, up, down, k, j', turn) && (turn == Match || turn == Swap) && Keyed(l, up[k])
    ensures Cmp(l, up[k], down[j']) == 0 && Keyed(l, down[j'])
  {
    var u, d' := up[k], down[j'];
    assert up[k..][0] == u && down[j'..][0] == d';
    if turn == Match {
      SameKeepsKey(l, u, d');
      SameClash(l, u, d', u);
    } else {
      CmpPreorder(l, u, d', d');
      assert Touched(l, up, d');
    }
  }

  /**
   * Streams in the order of the comparison, in which different numbers have different positions: the repair leaves what it
   * should if and only if every downstream row opposite a different upstream row has the key of some upstream row.
   */
  lemma {:induction false} CoveredRepairs(l: Layout, up: seq<Row>, down: seq<Row>)
    requires Rows(l, up, down) && ExactKeys(l) && Ascending(l, up) && Ascending(l, down) && Unique(l, down) && RanksTell(l, up + down)
    ensures ApplyKeyed(l, Merge(l, up, down), multiset(down)) == Final(l, up, down) <==> Covered(l, up, down)
  {
    KeyedRepairs(l, up, down);
    CoveredSwaps(l, up, down);
    if NoFailure(l, up, down) {
      forall i: nat, j: nat | j < |down| && At(l, up, down, i, j, Swap)
        ensures Touched(l, up, down[j])
      {
        SwapFails(l, up, down, i, j);
      }
    }
    if SwapsTouched(l, up, down) {
      forall i: nat, j: nat, turn: Turn
        ensures !Fails(l, up, down, i, j, turn)
      {
        if Fails(l, up, down, i, j, turn) {
          CoveredHolds(l, up, down, i, j, turn);
        }
      }
    }
  }

  lemma {:induction false} CoveredHolds(l: Layout, up: seq<Row>, down: seq<Row>, i: nat, j: nat, turn: Turn)
    requires Rows(l, up, down) && ExactKeys(l) && Ascending(l, down) && Unique(l, down) && RanksTell(l, up + down)
    requires SwapsTouched(l, up, down)
    ensures !Fails(l, up, down, i, j, turn)
  {
    if Fails(l, up, down, i, j, turn) {
      NoPrior(l, up, down, i, j, turn);
      LastKeyTouched(l, up[..i], down[j]);
      SwapFails(l, up, down, i, j);
    }
  }

  // ---------- Which inputs are covered ----------

  /** No key column is quoted, so that NULL is equal to NULL alone. */
  predicate Bare(l: Layout) {
    LayoutOk(l) && forall i :: 0 <= i < |l.keys| ==> !l.columns[l.keys[i]].quoted
  }

  lemma {:induction false} SameNulls(l: Layout, keys: seq<nat>, a: Row, b: Row)
    requires RowOk(l, a) && RowOk(l, b) && KeysIn(l, keys) && forall i :: 0 <= i < |keys| ==> !l.columns[keys[i]].quoted
    requires Lex(KeyOrder, l, keys, a, b) == 0
    ensures forall i :: 0 <= i < |keys| ==> (a[keys[i]].None? <==> b[keys[i]].None?)
  {
    if keys != [] {
      SameNulls(l, keys[1..], a, b);
      assert forall i :: 0 < i < |keys| ==> keys[i] == keys[1..][i - 1];
    }
  }

  /** With no quoted key column: if and only if opposite rows are the same or clash. */
  lemma {:induction false} CoveredIff(l: Layout, up: seq<Row>, down: seq<Row>)
    requires Rows(l, up, down) && Bare(l) && RanksTell(l, up + down)
    ensures Covered(l, up, down) <==>
            forall i, j :: 0 <= i < |up| && 0 <= j < |down| && Opposite(l, up, down, i, j) ==>
              Same(l, up[i], down[j]) || Clash(l, up[i], down[j])
  {
    if Covered(l, up, down) {
      forall i, j | 0 <= i < |up| && 0 <= j < |down| && Opposite(l, up, down, i, j) && !Same(l, up[i], down[j])
        ensures Clash(l, up[i], down[j])
      {
        var k :| 0 <= k < |up| && Clash(l, up[k], down[j]);
        ClashCmp(l, up[k], down[j]);
        SameNulls(l, l.keys, up[i], down[j]);
        PlaceIsKey(l, up, down, up[i], down[j]);
      }
    }
  }

  predicate AllKeyed(l: Layout, rows: seq<Row>) {
    forall i :: 0 <= i < |rows| ==> Keyed(l, rows[i])
  }

  /** With a primary key every input is. */
  lemma {:induction false} KeyedCovered(l: Layout, up: seq<Row>, down: seq<Row>)
    requires Rows(l, up, down) && AllKeyed(l, up) && AllKeyed(l, down) && RanksTell(l, up + down)
    ensures Covered(l, up, down)
  {
    forall i, j | 0 <= i < |up| && 0 <= j < |down| && Opposite(l, up, down, i, j)
      ensures Touched(l, up, down[j])
    {
      PlaceIsKey(l, up, down, up[i], down[j]);
    }
  }

  /**
   * A table with a primary key, in the order of the database and of the shard merge, if its different numbers are compared
   * as different: exactly the upstream rows, of rows with one key the last.
   */
  lemma {:induction false} PrimaryKeyRepairs(l: Layout, up: seq<Row>, down: seq<Row>)
    requires Rows(l, up, down) && ExactKeys(l) && SortedRows(l, up) && SortedRows(l, down) && Unique(l, down)
    requires AllKeyed(l, up) && AllKeyed(l, down) && RanksTell(l, up + down)
    ensures ApplyKeyed(l, Merge(l, up, down), multiset(down)) == Final(l, up, down)
    ensures ExactColumns(l) ==> ApplyKeyed(l, Merge(l, up, down), multiset(down)) == LastOf(l, up)
    ensures ExactColumns(l) && Unique(l, up) ==> ApplyKeyed(l, Merge(l, up, down), multiset(down)) == multiset(up)
  {
    SortedIsAscending(l, up);
    SortedIsAscending(l, down);
    KeyedCovered(l, up, down);
    CoveredRepairs(l, up, down);
    if ExactColumns(l) {
      FinalExact(l, up, down);
      if Unique(l, up) {
        LastOfUnique(l, up);
      }
    }
  }

  lemma {:induction false} UniqueStrict(l: Layout, up: seq<Row>, down: seq<Row>, rows: seq<Row>)
    requires Rows(l, up, down) && (rows == up || rows == down) && RanksTell(l, up + down)
    requires SortedRows(l, rows) && Unique(l, rows) && AllKeyed(l, rows)
    ensures Strict(l, rows)
  {
    SortedIsAscending(l, rows);
    forall i, j | 0 <= i < j < |rows|
      ensures Cmp(l, rows[i], rows[j]) < 0
    {
      if Cmp(l, rows[i], rows[j]) == 0 {
        PlaceIsKey(l, up, down, rows[i], rows[j]);
      }
    }
  }

  /** And the two counts are the numbers of rows that are only upstream, and only downstream. */
  lemma {:induction false} PrimaryKeyCounts(l: Layout, up: seq<Row>, down: seq<Row>)
    requires Rows(l, up, down) && ExactColumns(l) && ExactKeys(l) && SortedRows(l, up) && SortedRows(l, down)
    requires Unique(l, up) && Unique(l, down) && AllKeyed(l, up) && AllKeyed(l, down) && RanksTell(l, up + down)
    ensures Adds(Merge(l, up, down)) == |multiset(up) - multiset(down)| && Dels(Merge(l, up, down)) == |multiset(down) - multiset(up)|
  {
    UniqueStrict(l, up, down, up);
    UniqueStrict(l, up, down, down);
    forall r: Row
      ensures !Displaced(l, up, down, r)
    {
      StrictInPlace(l, up, down, r);
    }
    CountsAreDifferences(l, up, down);
  }

  // ---------- What the repaired table holds ----------

  /** Of rows with NULL in the key all copies, of the others those that are last with their key. */
  lemma {:induction false} LastOfCount(l: Layout, up: seq<Row>, x: Row)
    ensures !Keyed(l, x) ==> LastOf(l, up)[x] == multiset(up)[x]
    ensures Keyed(l, x) ==> LastOf(l, up)[x] == if LastKey(l, up, x) == Some(x) then 1 else 0
  {
    if up != [] {
      LastOfCount(l, up[1..], x);
      HeadBag(up);
      LastKeyTouched(l, up[1..], x);
      ClashSelf(l, x);
      if !Keyed(l, x) {
        NullUntouched(l, up[1..], x);
      }
    }
  }

  /** With exact columns, those rows. */
  lemma {:induction false} FinalExact(l: Layout, up: seq<Row>, down: seq<Row>)
    requires Rows(l, up, down) && ExactColumns(l)
    ensures Final(l, up, down) == LastOf(l, up)
    decreases |up| + |down|
  {
    if up != [] {
      RestShorter(l, up, down);
      FinalExact(l, RestUp(l, up, down), RestDown(l, up, down));
      if TurnOf(l, up, down) == Match {
        SameIsEqual(l, up[0], down[0]);
      }
      assert Once(up[0], false) + LastOf(l, up) == LastOf(l, up);
    }
  }

  /** With one row per key upstream, all of them. */
  lemma {:induction false} LastOfUnique(l: Layout, up: seq<Row>)
    requires Unique(l, up)
    ensures LastOf(l, up) == multiset(up)
  {
    if up != [] {
      HeadBag(up);
      LastOfUnique(l, up[1..]);
      forall k | 0 <= k < |up[1..]|
        ensures !Clash(l, up[1..][k], up[0])
      {
        ClashSwaps(l, up[0], up[k + 1]);
      }
    }
  }

  /** A row of the repaired table is the same as an upstream row and at its position. */
  predicate Stands(l: Layout, u: Row, r: Row) {
    LayoutOk(l) && RowOk(l, u) && RowOk(l, r) && Same(l, u, r) && Cmp(l, u, r) == 0
  }

  /** The list starts with this row, or is the one behind it. */
  function Ahead(r: Row, here: bool, rest: seq<Row>): seq<Row> {
    if here then [r] + rest else rest
  }

  lemma {:induction false} AheadBag(r: Row, here: bool, rest: seq<Row>)
    ensures multiset(Ahead(r, here, rest)) == Once(r, here) + multiset(rest)
  {
    if here {
      HeadBag(Ahead(r, here, rest));
      assert Ahead(r, here, rest)[1..] == rest;
    }
  }

  /**
   * With floats or JSON outside the key, copy for copy: each last upstream row, and the row that stands for it, with NULL
   * in the same columns, JSON aside, and equal there but for the tolerance of floats.
   */
  lemma {:induction false} FinalMatches(l: Layout, up: seq<Row>, down: seq<Row>) returns (us: seq<Row>, rs: seq<Row>)
    requires Rows(l, up, down) && ExactKeys(l)
    ensures multiset(us) == LastOf(l, up) && multiset(rs) == Final(l, up, down)
    ensures |us| == |rs| && forall i :: 0 <= i < |us| ==> Stands(l, us[i], rs[i]) && Agrees(l, us[i], rs[i])
    decreases |up| + |down|
  {
    if up == [] {
      us, rs := [], [];
    } else {
      var up', down' := RestUp(l, up, down), RestDown(l, up, down);
      RestShorter(l, up, down);
      var us', rs' := FinalMatches(l, up', down');
      var r, here := Standing(l, up, down), TurnOf(l, up, down) != Drop && !Touched(l, up[1..], up[0]);
      HeadStands(l, up, down);
      us, rs := Ahead(up[0], here, us'), Ahead(r, here, rs');
      AheadBag(up[0], here, us');
      AheadBag(r, here, rs');
      StandsMore(l, up[0], r, here, us', rs');
      LastOfTurn(l, up, TurnOf(l, up, down), up');
    }
  }

  lemma {:induction false} LastOfTurn(l: Layout, up: seq<Row>, turn: Turn, up': seq<Row>)
    requires up != [] && up' == if turn == Drop then up else up[1..]
    ensures LastOf(l, up) == Once(up[0], turn != Drop && !Touched(l, up[1..], up[0])) + LastOf(l, up')
  {
    assert Once(up[0], false) + LastOf(l, up) == LastOf(l, up);
  }

  lemma {:induction false} HeadStands(l: Layout, up: seq<Row>, down: seq<Row>)
    requires Rows(l, up, down) && ExactKeys(l) && up != []
    ensures Stands(l, up[0], Standing(l, up, down)) && Agrees(l, up[0], Standing(l, up, down))
  {
    CmpSelf(l, up[0]);
    SameSymmetric(l, up[0], up[0]);
    if TurnOf(l, up, down) == Match {
      SameKeepsKey(l, up[0], down[0]);
    }
    SameAgrees(l, up[0], Standing(l, up, down));
  }

  lemma {:induction false} StandsMore(l: Layout, u: Row, r: Row, here: bool, us: seq<Row>, rs: seq<Row>)
    requires Stands(l, u, r) && Agrees(l, u, r)
    requires |us| == |rs| && forall i :: 0 <= i < |us| ==> Stands(l, us[i], rs[i]) && Agrees(l, us[i], rs[i])
    ensures var us', rs' := Ahead(u, here, us), Ahead(r, here, rs);
            |us'| == |rs'| && forall i :: 0 <= i < |us'| ==> Stands(l, us'[i], rs'[i]) && Agrees(l, us'[i], rs'[i])
  {
  }

  // ---------- Inputs where it fails, and where it does not ----------

  lemma {:induction false} OneWritten(l: Layout, t: multiset<Row>, u: Row)
    requires forall r :: r in t ==> !Clash(l, u, r)
    ensures Written(l, t, u) == t + multiset{u}
  {
    assert Without(l, t, u) == t;
  }

  lemma {:induction false} WrittenOver(l: Layout, t: multiset<Row>, d: Row, u: Row)
    requires Clash(l, u, d) && forall r :: r in t ==> !Clash(l, u, r)
    ensures Written(l, t + multiset{d}, u) == t + multiset{u}
  {
    assert Without(l, t + multiset{d}, u) == t;
  }

  lemma {:induction false} ApplyTwo(l: Layout, a: Op, b: Op, t: multiset<Row>)
    ensures ApplyKeyed(l, [a], t) == ApplyOne(l, a, t)
    ensures ApplyKeyed(l, [a, b], t) == ApplyOne(l, b, ApplyOne(l, a, t))
  {
    assert [a] == [a] + [] && [b] == [b] + [] && [a, b] == [a] + [b];
    ApplyTurn(l, [a], [], t);
    ApplyTurn(l, [a], [b], t);
    ApplyTurn(l, [b], [], ApplyOne(l, a, t));
  }

  /** A replace of two rows that do not clash, as with NULL in both keys or with one float for two integers, leaves both. */
  lemma {:induction false} NullKeyStays(l: Layout, u: Row, d: Row)
    requires LayoutOk(l) && RowOk(l, u) && RowOk(l, d) && !Same(l, u, d) && Cmp(l, u, d) == 0 && !Clash(l, u, d)
    ensures Merge(l, [u], [d]) == [Replace(u, d)] && ApplyKeyed(l, Merge(l, [u], [d]), multiset{d}) == multiset{d, u}
  {
    OneReplaced(l, u, d);
    ApplyTwo(l, Replace(u, d), Replace(u, d), multiset{d});
    OneWritten(l, multiset{d}, u);
  }

  /** As do the two integers beyond 2^53 that are one float. */
  lemma {:induction false} BigIntegersKept()
    ensures var l := Layout([Column(Plain, false, 0.0)], [0]);
            var u, d := [Some(Keys.Value("9007199254740993", 9007199254740992.0))], [Some(Keys.Value("9007199254740992", 9007199254740992.0))];
            && Rows(l, [u], [d]) && Unique(l, [d]) && !RanksTell(l, [u] + [d])
            && ApplyKeyed(l, Merge(l, [u], [d]), multiset{d}) == multiset{d, u}
  {
    var l := Layout([Column(Plain, false, 0.0)], [0]);
    var u, d := [Some(Keys.Value("9007199254740993", 9007199254740992.0))], [Some(Keys.Value("9007199254740992", 9007199254740992.0))];
    assert !SameCell(l.columns[0], u[0], d[0]) && !KeyCell(l.columns[l.keys[0]], u[l.keys[0]], d[l.keys[0]]);
    assert !OneValue(l.columns[l.keys[0]], ([u] + [d])[0][l.keys[0]], ([u] + [d])[1][l.keys[0]]);
    assert Lex(KeyOrder, l, l.keys[1..], u, d) == 0;
    NullKeyStays(l, u, d);
  }

  /** Of two different rows with one key the new one takes the place of the old one. */
  lemma {:induction false} ClashReplaced(l: Layout, u: Row, d: Row)
    requires Clash(l, u, d) && !Same(l, u, d)
    ensures Merge(l, [u], [d]) == [Replace(u, d)] && ApplyKeyed(l, Merge(l, [u], [d]), multiset{d}) == multiset{u}
  {
    ClashCmp(l, u, d);
    OneReplaced(l, u, d);
    ApplyTwo(l, Replace(u, d), Replace(u, d), multiset{d});
    assert multiset{d} == multiset{} + multiset{d};
    WrittenOver(l, multiset{}, d, u);
  }

  /** Such are two texts that the collation does not tell apart. */
  lemma {:induction false} CollatedTexts(u: Keys.Value, d: Keys.Value)
    requires u.rank == d.rank && u != d
    ensures var l := Layout([Column(Plain, true, 0.0)], [0]); Clash(l, [Some(u)], [Some(d)]) && !Same(l, [Some(u)], [Some(d)])
  {
    var l := Layout([Column(Plain, true, 0.0)], [0]);
    assert !SameCell(l.columns[0], [Some(u)][0], [Some(d)][0]);
  }

  lemma {:induction false} MergeThree(l: Layout, y: Row, x: Row, d: Row)
    requires LayoutOk(l) && RowOk(l, y) && RowOk(l, x) && RowOk(l, d) && !Same(l, y, d) && Cmp(l, y, d) == 0
    ensures Merge(l, [y, x], [d]) == [Replace(y, d), Insert(x)]
    ensures Merge(l, [y], [d, x]) == [Replace(y, d), Delete(x)]
  {
    MergeUnfold(l, [y, x], [d]);
    MergeUnfold(l, [y], [d, x]);
    MergeUnfold(l, [x], []);
    MergeUnfold(l, [], [x]);
    assert [y, x][1..] == [x] && [d, x][1..] == [x] && [y][1..] == [] && [d][1..] == [];
    assert Inserts([x]) == [Insert(x)] && Deletes([x]) == [Delete(x)];
  }

  /** A row written over one with another key, or with none, leaves it; a row after it with that key takes its place. */
  lemma {:induction false} LaterWriteRemoves(l: Layout, y: Row, x: Row, d: Row)
    requires LayoutOk(l) && RowOk(l, y) && RowOk(l, x) && RowOk(l, d)
    requires !Same(l, y, d) && Cmp(l, y, d) == 0 && !Clash(l, y, d) && Clash(l, x, d)
    ensures Merge(l, [y, x], [d]) == [Replace(y, d), Insert(x)]
    ensures ApplyKeyed(l, Merge(l, [y, x], [d]), multiset{d}) == multiset{y, x}
  {
    MergeThree(l, y, x, d);
    ApplyTwo(l, Replace(y, d), Insert(x), multiset{d});
    ClashMoves(l, x, d, y);
    ClashSwaps(l, x, y);
    OneWritten(l, multiset{d}, y);
    WrittenOver(l, multiset{y}, d, x);
    assert multiset{d} + multiset{y} == multiset{y} + multiset{d};
  }

  /** A row that replaces one with NULL in the key, and is also there behind it, is deleted right after it is written. */
  lemma {:induction false} WrittenRowDeleted(l: Layout, x: Row, z: Row)
    requires LayoutOk(l) && RowOk(l, x) && RowOk(l, z) && !Same(l, x, z) && Cmp(l, x, z) == 0 && Keyed(l, x) && !Clash(l, x, z)
    ensures Merge(l, [x], [z, x]) == [Replace(x, z), Delete(x)]
    ensures ApplyKeyed(l, Merge(l, [x], [z, x]), multiset{z, x}) == multiset{z}
  {
    MergeThree(l, x, x, z);
    ApplyTwo(l, Replace(x, z), Delete(x), multiset{z, x});
    ClashSelf(l, x);
    WrittenOver(l, multiset{z}, x, x);
    assert multiset{z, x} == multiset{z} + multiset{x};
  }

  /** There are such rows: in a quoted key column NULL compares as equal to the empty string. */
  lemma {:induction false} QuotedNulls()
    ensures var l := Layout([Column(Plain, true, 0.0)], [0]);
            var none, blank := [None], [Some(Keys.Value("", 0.0))];
            && LayoutOk(l) && RowOk(l, none) && RowOk(l, blank) && Cmp(l, none, blank) == 0 == Cmp(l, blank, none)
            && !Same(l, none, blank) && !Same(l, blank, none) && !Keyed(l, none) && Keyed(l, blank) && Clash(l, blank, blank)
  {
    var l := Layout([Column(Plain, true, 0.0)], [0]);
    var none: Row, blank: Row := [None], [Some(Keys.Value("", 0.0))];
    assert l.keys[1..] == [];
    assert Lex(KeyOrder, l, l.keys[1..], none, blank) == 0 == Lex(KeyOrder, l, l.keys[1..], blank, none);
    assert !SameCell(l.columns[0], none[0], blank[0]) && !SameCell(l.columns[0], blank[0], none[0]);
    assert none[l.keys[0]].None?;
  }

  lemma {:induction false} CrossedThree(l: Layout, z: Row, x: Row)
    requires LayoutOk(l) && RowOk(l, z) && RowOk(l, x) && Crossed(l, z, x)
    ensures Merge(l, [x], [z, x]) == [Insert(x)] + [Delete(z), Delete(x)]
  {
    MergeUnfold(l, [x], [z, x]);
    assert [x][1..] == [] && Deletes([z, x]) == [Delete(z), Delete(x)];
  }

  lemma {:induction false} WriteAndDelete(l: Layout, z: Row, x: Row)
    requires Keyed(l, x) && !Clash(l, x, z)
    ensures ApplyKeyed(l, [Insert(x)] + [Delete(z), Delete(x)], multiset{z, x}) == multiset{}
  {
    var table := multiset{z, x};
    ClashSelf(l, x);
    ApplyTurn(l, [Insert(x)], [Delete(z), Delete(x)], table);
    assert table == multiset{z} + multiset{x};
    WrittenOver(l, multiset{z}, x, x);
    ApplyTwo(l, Delete(z), Delete(x), table);
  }

  /** Rows that the comparison takes in another order than they come in: the correct row is written, and then deleted. */
  lemma {:induction false} CrossedDeletes(l: Layout, z: Row, x: Row)
    requires LayoutOk(l) && RowOk(l, z) && RowOk(l, x) && Crossed(l, z, x) && Keyed(l, x)
    ensures SortedRows(l, [z, x]) && SortedRows(l, [x]) && Unique(l, [z, x])
    ensures Merge(l, [x], [z, x]) == [Insert(x)] + [Delete(z), Delete(x)]
    ensures ApplyKeyed(l, Merge(l, [x], [z, x]), multiset{z, x}) == multiset{} && Final(l, [x], [z, x]) == multiset{x}
  {
    CrossedSorted(l, z, x);
    ClashApart(l, z, x);
    CrossedThree(l, z, x);
    WriteAndDelete(l, z, x);
    FinalSingle(l, x, [z, x]);
  }

  lemma {:induction false} ClashApart(l: Layout, z: Row, x: Row)
    requires LayoutOk(l) && RowOk(l, z) && RowOk(l, x) && Cmp(l, x, z) < 0
    ensures !Clash(l, x, z) && Unique(l, [z, x])
  {
    if Clash(l, x, z) {
      ClashCmp(l, x, z);
    }
    ClashSwaps(l, x, z);
  }

  lemma {:induction false} FinalSingle(l: Layout, x: Row, down: seq<Row>)
    requires Rows(l, [x], down) && down != [] && TurnOf(l, [x], down) == Add
    ensures Final(l, [x], down) == multiset{x}
  {
    assert RestUp(l, [x], down) == [];
    assert !Touched(l, [x][1..], x);
  }
}
