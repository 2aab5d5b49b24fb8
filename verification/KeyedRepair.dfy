/**
 * What the fix statements do to a downstream table with a unique key: a row that is written takes the place of the row
 * with its key, and no two rows are in each other's way if a key column is NULL.
 */
module KeyedRepair {
  import opened Wrappers
  import opened RowOrder
  import opened CompareRows
  import opened Turns
  import opened Repair

  /** Equal for the database: texts under the collation, numbers as the values they are and not as floats. */
  predicate KeyCell(c: Column, a: Cell, b: Cell) {
    a.Some? && b.Some? && if c.quoted then a.value.rank == b.value.rank else a == b
  }

  /** Both keys are there and equal: the two rows cannot be in one table. */
  predicate Clash(l: Layout, a: Row, b: Row) {
    && LayoutOk(l) && RowOk(l, a) && RowOk(l, b)
    && forall i :: 0 <= i < |l.keys| ==> KeyCell(l.columns[l.keys[i]], a[l.keys[i]], b[l.keys[i]])
  }

  /** No key column is NULL. */
  predicate Keyed(l: Layout, r: Row) {
    LayoutOk(l) && RowOk(l, r) && KeyNonNull(l, r)
  }

  /** The rows that can stay when a row is written. */
  ghost function Without(l: Layout, t: multiset<Row>, u: Row): (left: multiset<Row>)
    ensures forall x: Row :: left[x] == if Clash(l, u, x) then 0 else t[x]
    decreases |t|
  {
    if t == multiset{} then multiset{}
    else
      var r :| r in t;
      var left := Without(l, t[r := 0], u);
      if Clash(l, u, r) then left else left[r := t[r]]
  }

  ghost function Written(l: Layout, t: multiset<Row>, u: Row): multiset<Row> {
    Without(l, t, u) + multiset{u}
  }

  ghost function ApplyOne(l: Layout, op: Op, t: multiset<Row>): multiset<Row> {
    if op.Delete? then t - multiset{op.row} else Written(l, t, op.row)
  }

  ghost function ApplyKeyed(l: Layout, ops: seq<Op>, t: multiset<Row>): multiset<Row> {
    if ops == [] then t else ApplyKeyed(l, ops[1..], ApplyOne(l, ops[0], t))
  }

  // ---------- Keys ----------

  lemma {:induction false} KeyCellsLex(l: Layout, keys: seq<nat>, a: Row, b: Row)
    requires RowOk(l, a) && RowOk(l, b) && KeysIn(l, keys)
    requires forall i :: 0 <= i < |keys| ==> KeyCell(l.columns[keys[i]], a[keys[i]], b[keys[i]])
    ensures Lex(KeyOrder, l, keys, a, b) == 0
  {
    if keys != [] {
      KeyCellsLex(l, keys[1..], a, b);
    }
  }

  lemma {:induction false} ClashCmp(l: Layout, a: Row, b: Row)
    requires Clash(l, a, b)
    ensures Cmp(l, a, b) == 0 && Keyed(l, a) && Keyed(l, b)
  {
    KeyCellsLex(l, l.keys, a, b);
  }

  lemma {:induction false} ClashMoves(l: Layout, a: Row, b: Row, c: Row)
    requires Clash(l, a, b)
    ensures Clash(l, b, a) && (Clash(l, a, c) <==> Clash(l, b, c)) && (Clash(l, c, a) <==> Clash(l, c, b))
  {
  }

  lemma {:induction false} ClashSwaps(l: Layout, a: Row, b: Row)
    ensures Clash(l, a, b) <==> Clash(l, b, a)
  {
  }

  lemma {:induction false} ClashSelf(l: Layout, a: Row)
    ensures Clash(l, a, a) <==> Keyed(l, a)
  {
  }

  /** Rows that are the same clash with the same rows, unless key columns are floats or JSON. */
  lemma {:induction false} SameClash(l: Layout, a: Row, b: Row, c: Row)
    requires LayoutOk(l) && RowOk(l, a) && RowOk(l, b) && ExactKeys(l) && Same(l, a, b)
    ensures Clash(l, a, c) <==> Clash(l, b, c)
    ensures Keyed(l, a) <==> Keyed(l, b)
  {
    forall i | 0 <= i < |l.keys|
      ensures a[l.keys[i]] == b[l.keys[i]]
    {
      assert SameCell(l.columns[l.keys[i]], a[l.keys[i]], b[l.keys[i]]);
    }
  }

  /** Some row of the stream has the key of this one. */
  predicate Touched(l: Layout, up: seq<Row>, r: Row) {
    exists k :: 0 <= k < |up| && Clash(l, up[k], r)
  }

  /** The last row of a list with the key of this one. */
  function LastKey(l: Layout, rows: seq<Row>, x: Row): Option<Row> {
    if rows == [] then None
    else
      var last := LastKey(l, rows[1..], x);
      if last.Some? then last else if Clash(l, rows[0], x) then Some(rows[0]) else None
  }

  lemma {:induction false} LastKeyTouched(l: Layout, rows: seq<Row>, x: Row)
    ensures LastKey(l, rows, x).Some? <==> Touched(l, rows, x)
    ensures LastKey(l, rows, x).Some? ==> Clash(l, LastKey(l, rows, x).value, x)
  {
    if rows != [] {
      LastKeyTouched(l, rows[1..], x);
      TouchedHead(l, rows, x);
    }
  }

  lemma {:induction false} TouchedHead(l: Layout, up: seq<Row>, r: Row)
    requires up != []
    ensures Touched(l, up, r) <==> Clash(l, up[0], r) || Touched(l, up[1..], r)
  {
    if k :| 0 <= k < |up| && Clash(l, up[k], r) {
      if k > 0 {
        assert Clash(l, up[1..][k - 1], r);
      }
    }
    if k :| 0 <= k < |up[1..]| && Clash(l, up[1..][k], r) {
      assert Clash(l, up[k + 1], r);
    }
  }

  /** It depends on the key alone. */
  lemma {:induction false} LastKeyMoves(l: Layout, rows: seq<Row>, x: Row, y: Row)
    requires Clash(l, x, y)
    ensures LastKey(l, rows, x) == LastKey(l, rows, y)
  {
    if rows != [] {
      LastKeyMoves(l, rows[1..], x, y);
      ClashMoves(l, x, y, rows[0]);
    }
  }

  lemma {:induction false} LastKeyMore(l: Layout, rows: seq<Row>, r: Row, x: Row)
    ensures LastKey(l, rows + [r], x) == if Clash(l, r, x) then Some(r) else LastKey(l, rows, x)
  {
    if rows == [] {
      assert ([] + [r])[1..] == [];
    } else {
      assert (rows + [r])[1..] == rows[1..] + [r];
      LastKeyMore(l, rows[1..], r, x);
    }
  }

  /** No two rows of a table clash. */
  predicate Unique(l: Layout, rows: seq<Row>) {
    forall i, j :: 0 <= i < j < |rows| ==> !Clash(l, rows[i], rows[j])
  }

  // ---------- The specification ----------

  function Once(r: Row, here: bool): multiset<Row> {
    if here then multiset{r} else multiset{}
  }

  /** The last row of each key, and every row with NULL in the key. */
  function LastOf(l: Layout, up: seq<Row>): multiset<Row> {
    if up == [] then multiset{} else Once(up[0], !Touched(l, up[1..], up[0])) + LastOf(l, up[1..])
  }

  /** The row that stands for the head of the upstream rows: the downstream row if both are the same. */
  function Standing(l: Layout, up: seq<Row>, down: seq<Row>): Row
    requires Rows(l, up, down) && up != []
  {
    if TurnOf(l, up, down) == Match then down[0] else up[0]
  }

  /** What the table should hold: those rows, or the downstream rows that they are the same as. */
  function Final(l: Layout, up: seq<Row>, down: seq<Row>): multiset<Row>
    requires Rows(l, up, down)
    decreases |up| + |down|
  {
    if up == [] then multiset{}
    else
      assert RestUp(l, up, down) == up || RestUp(l, up, down) == up[1..];
      Once(Standing(l, up, down), TurnOf(l, up, down) != Drop && !Touched(l, up[1..], up[0]))
      + Final(l, RestUp(l, up, down), RestDown(l, up, down))
  }

  // ---------- Where the repair of a key goes wrong ----------

  /**
   * A turn that leaves the wrong row for the key of the downstream row `d`, when no later row has that key: a match after
   * another row was written, a delete of the very row that was written last, or a replace that leaves `d` with no
   * row for its key.
   */
  predicate Breaks(l: Layout, prior: Option<Row>, later: seq<Row>, d: Row, turn: Turn) {
    match turn
    case Match => prior.Some? && prior.value != d && later != [] && !Touched(l, later[1..], d)
    case Drop => prior == Some(d) && !Touched(l, later, d)
    case Swap => prior.None? && !Touched(l, later, d)
    case Add => false
  }

  /** The row that is left for the key then. */
  function Wrong(prior: Option<Row>, d: Row, turn: Turn): Option<Row> {
    match turn
    case Match => prior
    case Swap => Some(d)
    case _ => None
  }

  /** The walk makes such a turn at the downstream row `j`, behind `i` upstream rows. */
  predicate Fails(l: Layout, up: seq<Row>, down: seq<Row>, i: nat, j: nat, turn: Turn)
    requires Rows(l, up, down)
  {
    && j < |down| && At(l, up, down, i, j, turn)
    && Breaks(l, LastKey(l, up[..i], down[j]), up[i..], down[j], turn)
  }

  // ---------- What a table holds for a key ----------

  function OrElse(a: Option<Row>, b: Option<Row>): Option<Row> {
    if a.Some? then a else b
  }

  /** Of the rows with the key of `x`, the table has exactly this one, or none. */
  ghost predicate Holds(l: Layout, t: multiset<Row>, cur: Option<Row>, x: Row) {
    && (cur.Some? ==> Clash(l, x, cur.value))
    && forall y: Row :: Clash(l, x, y) ==> t[y] == if cur == Some(y) then 1 else 0
  }

  function ContentOne(l: Layout, op: Op, cur: Option<Row>, x: Row): Option<Row> {
    if op.Delete? then (if cur == Some(op.row) then None else cur)
    else if Clash(l, x, op.row) then Some(op.row) else cur
  }

  /** What the operations make of it. */
  function Content(l: Layout, ops: seq<Op>, cur: Option<Row>, x: Row): Option<Row> {
    if ops == [] then cur else Content(l, ops[1..], ContentOne(l, ops[0], cur, x), x)
  }

  lemma {:induction false} HoldsOne(l: Layout, op: Op, t: multiset<Row>, cur: Option<Row>, x: Row)
    requires Holds(l, t, cur, x)
    ensures Holds(l, ApplyOne(l, op, t), ContentOne(l, op, cur, x), x)
  {
    if !op.Delete? {
      forall y: Row | Clash(l, x, y)
        ensures Clash(l, op.row, y) == Clash(l, x, op.row)
      {
        ClashMoves(l, x, y, op.row);
        ClashSwaps(l, y, op.row);
      }
    }
  }

  lemma {:induction false} HoldsAll(l: Layout, ops: seq<Op>, t: multiset<Row>, cur: Option<Row>, x: Row)
    requires Holds(l, t, cur, x)
    ensures Holds(l, ApplyKeyed(l, ops, t), Content(l, ops, cur, x), x)
  {
    if ops != [] {
      HoldsOne(l, ops[0], t, cur, x);
      HoldsAll(l, ops[1..], ApplyOne(l, ops[0], t), ContentOne(l, ops[0], cur, x), x);
    }
  }

  /** A table without clashing rows holds for each key its row. */
  lemma {:induction false} UniqueHolds(l: Layout, rows: seq<Row>, x: Row)
    requires Unique(l, rows)
    ensures Holds(l, multiset(rows), LastKey(l, rows, x), x)
  {
    if rows != [] {
      HeadBag(rows);
      UniqueHolds(l, rows[1..], x);
      ClashSwaps(l, rows[0], x);
      if Clash(l, rows[0], x) {
        NoOther(l, rows, 0, x);
        LastKeyTouched(l, rows[1..], x);
      }
      HoldsHead(l, rows[0], multiset(rows[1..]), LastKey(l, rows[1..], x), x);
    }
  }

  lemma {:induction false} HoldsHead(l: Layout, r: Row, t: multiset<Row>, cur: Option<Row>, x: Row)
    requires Holds(l, t, cur, x) && (Clash(l, x, r) ==> cur.None?)
    ensures Holds(l, multiset{r} + t, if Clash(l, x, r) then Some(r) else cur, x)
  {
  }

  /** Behind the row with a key there is none with the same key. */
  lemma {:induction false} NoOther(l: Layout, rows: seq<Row>, k: nat, x: Row)
    requires Unique(l, rows) && k < |rows| && Clash(l, rows[k], x)
    ensures !Touched(l, rows[k + 1..], x)
    ensures forall j :: 0 <= j < |rows| && Clash(l, rows[j], x) ==> j == k
  {
    forall j | 0 <= j < |rows| && j != k
      ensures !Clash(l, rows[j], x)
    {
      ClashMoves(l, rows[k], x, rows[j]);
      ClashSwaps(l, rows[k], rows[j]);
      assert !Clash(l, rows[if j < k then j else k], rows[if j < k then k else j]);
    }
    var behind := rows[k + 1..];
    assert forall j :: 0 <= j < |behind| ==> behind[j] == rows[k + 1 + j];
  }

  // ---------- The walk, for one key ----------

  lemma {:induction false} ContentFirst(l: Layout, first: seq<Op>, rest: seq<Op>, cur: Option<Row>, x: Row)
    requires |first| <= 1
    ensures Content(l, first + rest, cur, x) == Content(l, rest, if first == [] then cur else ContentOne(l, first[0], cur, x), x)
  {
    if first == [] {
      assert first + rest == rest;
    } else {
      assert (first + rest)[0] == first[0] && (first + rest)[1..] == rest;
    }
  }

  /** What one turn makes of the row with the key. */
  function TurnContent(l: Layout, up: seq<Row>, down: seq<Row>, turn: Turn, cur: Option<Row>, x: Row): Option<Row>
    requires (turn == Drop || up != []) && (turn != Drop || down != [])
  {
    match turn
    case Match => cur
    case Drop => if cur == Some(down[0]) then None else cur
    case _ => if Clash(l, x, up[0]) then Some(up[0]) else cur
  }

  lemma {:induction false} ContentTurn(l: Layout, up: seq<Row>, down: seq<Row>, turn: Turn, up': seq<Row>, down': seq<Row>, cur: Option<Row>, x: Row)
    requires Rows(l, up, down) && (up != [] || down != [])
    requires turn == TurnOf(l, up, down) && up' == RestUp(l, up, down) && down' == RestDown(l, up, down)
    ensures Content(l, Merge(l, up, down), cur, x) == Content(l, Merge(l, up', down'), TurnContent(l, up, down, turn, cur, x), x)
  {
    MergeTurn(l, up, down);
    ContentFirst(l, OpsOf(l, up, down), Merge(l, up', down'), cur, x);
  }

  /** What the key should have: its last upstream row, or the downstream row that that is the same as. */
  function Wanted(l: Layout, up: seq<Row>, down: seq<Row>, x: Row): Option<Row>
    requires Rows(l, up, down)
    decreases |up| + |down|
  {
    if up == [] then None
    else
      assert RestUp(l, up, down) == up || RestUp(l, up, down) == up[1..];
      OrElse(Wanted(l, RestUp(l, up, down), RestDown(l, up, down), x),
             if TurnOf(l, up, down) != Drop && Clash(l, x, up[0]) then Some(Standing(l, up, down)) else None)
  }

  lemma {:induction false} WantedTouched(l: Layout, up: seq<Row>, down: seq<Row>, x: Row)
    requires Rows(l, up, down)
    ensures Wanted(l, up, down, x).Some? <==> Touched(l, up, x)
    decreases |up| + |down|
  {
    if up != [] {
      RestShorter(l, up, down);
      WantedTouched(l, RestUp(l, up, down), RestDown(l, up, down), x);
      TouchedHead(l, up, x);
      ClashSwaps(l, x, up[0]);
    }
  }

  lemma {:induction false} StandingClash(l: Layout, up: seq<Row>, down: seq<Row>, y: Row)
    requires Rows(l, up, down) && ExactKeys(l) && up != []
    ensures Clash(l, y, Standing(l, up, down)) <==> Clash(l, y, up[0])
    ensures Clash(l, Standing(l, up, down), y) <==> Clash(l, up[0], y)
  {
    if TurnOf(l, up, down) == Match {
      SameClash(l, up[0], down[0], y);
      ClashSwaps(l, y, up[0]);
      ClashSwaps(l, y, down[0]);
    }
  }

  /** And that is what the specification holds for it. */
  lemma {:induction false} FinalHolds(l: Layout, up: seq<Row>, down: seq<Row>, x: Row)
    requires Rows(l, up, down) && ExactKeys(l)
    ensures Holds(l, Final(l, up, down), Wanted(l, up, down, x), x)
    decreases |up| + |down|
  {
    if up != [] {
      var up', down' := RestUp(l, up, down), RestDown(l, up, down);
      RestShorter(l, up, down);
      FinalHolds(l, up', down', x);
      WantedTouched(l, up', down', x);
      StandingClash(l, up, down, x);
      FinalHoldsStep(l, Standing(l, up, down), TurnOf(l, up, down) != Drop, up, Final(l, up', down'), Wanted(l, up', down', x), x);
    }
  }

  lemma {:induction false} FinalHoldsStep(l: Layout, r: Row, taken: bool, up: seq<Row>, rest: multiset<Row>, w: Option<Row>, x: Row)
    requires up != [] && Holds(l, rest, w, x) && (Clash(l, x, r) <==> Clash(l, x, up[0]))
    requires taken ==> (w.Some? <==> Touched(l, up[1..], x))
    ensures Holds(l, Once(r, taken && !Touched(l, up[1..], up[0])) + rest, OrElse(w, if taken && Clash(l, x, up[0]) then Some(r) else None), x)
  {
    if Clash(l, x, up[0]) {
      SameKeyTouched(l, up[1..], x, up[0]);
    }
  }

  lemma {:induction false} SameKeyTouched(l: Layout, rows: seq<Row>, x: Row, y: Row)
    requires Clash(l, x, y)
    ensures Touched(l, rows, x) <==> Touched(l, rows, y)
  {
    LastKeyMoves(l, rows, x, y);
    LastKeyTouched(l, rows, x);
    LastKeyTouched(l, rows, y);
  }

  /** A key that no downstream row has: the last row that is written. */
  lemma {:induction false} NoDown(l: Layout, up: seq<Row>, down: seq<Row>, cur: Option<Row>, x: Row)
    requires Rows(l, up, down) && ExactKeys(l) && !Touched(l, down, x) && (cur.Some? ==> Clash(l, x, cur.value))
    ensures Content(l, Merge(l, up, down), cur, x) == OrElse(LastKey(l, up, x), cur)
    ensures Wanted(l, up, down, x) == LastKey(l, up, x)
    decreases |up| + |down|
  {
    if up == [] && down == [] {
      MergeNothing(l);
    } else {
      var turn, up', down' := TurnOf(l, up, down), RestUp(l, up, down), RestDown(l, up, down);
      if down != [] {
        TouchedHead(l, down, x);
        ClashSwaps(l, down[0], x);
      }
      RestShorter(l, up, down);
      ContentTurn(l, up, down, turn, up', down', cur, x);
      NoDown(l, up', down', TurnContent(l, up, down, turn, cur, x), x);
      if turn == Match {
        SameClash(l, up[0], down[0], x);
      }
      if up != [] {
        ClashSwaps(l, up[0], x);
      }
    }
  }

  // ---------- The turn that decides ----------

  /** Where the walk takes the downstream row with a key. */
  datatype Site = Site(i: nat, j: nat, turn: Turn)

  function SiteOf(l: Layout, up: seq<Row>, down: seq<Row>, x: Row): Site
    requires Rows(l, up, down)
    decreases |up| + |down|
  {
    if down == [] then Site(0, 0, Add)
    else if TurnOf(l, up, down) != Add && Clash(l, down[0], x) then Site(0, 0, TurnOf(l, up, down))
    else
      RestShorter(l, up, down);
      var turn := TurnOf(l, up, down);
      var s := SiteOf(l, RestUp(l, up, down), RestDown(l, up, down), x);
      Site(if turn == Drop then s.i else s.i + 1, if turn == Add then s.j else s.j + 1, s.turn)
  }

  lemma {:induction false} SiteUnfold(l: Layout, up: seq<Row>, down: seq<Row>, x: Row, turn: Turn, up': seq<Row>, down': seq<Row>)
    requires Rows(l, up, down) && down != []
    requires turn == TurnOf(l, up, down) && up' == RestUp(l, up, down) && down' == RestDown(l, up, down)
    ensures turn != Add && Clash(l, down[0], x) ==> SiteOf(l, up, down, x) == Site(0, 0, turn)
    ensures turn == Add || !Clash(l, down[0], x) ==>
              var s := SiteOf(l, up', down', x);
              SiteOf(l, up, down, x) == Site(if turn == Drop then s.i else s.i + 1, if turn == Add then s.j else s.j + 1, s.turn)
  {
  }

  lemma {:induction false} TouchedRest(l: Layout, down: seq<Row>, x: Row, turn: Turn, down': seq<Row>)
    requires Touched(l, down, x) && down != [] && down' == if turn == Add then down else down[1..]
    ensures (turn != Add && Clash(l, down[0], x)) || Touched(l, down', x)
  {
    TouchedHead(l, down, x);
  }

  /** There the walk takes the row with the key. */
  predicate IsSite(l: Layout, up: seq<Row>, down: seq<Row>, x: Row, s: Site)
    requires Rows(l, up, down)
  {
    s.j < |down| && Clash(l, down[s.j], x) && At(l, up, down, s.i, s.j, s.turn) && s.turn != Add
  }

  lemma {:induction false} SiteAt(l: Layout, up: seq<Row>, down: seq<Row>, x: Row)
    requires Rows(l, up, down) && Touched(l, down, x)
    ensures IsSite(l, up, down, x, SiteOf(l, up, down, x))
    decreases |up| + |down|
  {
    var turn, up', down' := TurnOf(l, up, down), RestUp(l, up, down), RestDown(l, up, down);
    SiteUnfold(l, up, down, x, turn, up', down');
    TouchedRest(l, down, x, turn, down');
    if turn != Add && Clash(l, down[0], x) {
      AtHead(l, up, down, 0, 0, turn);
    } else {
      RestShorter(l, up, down);
      SiteAt(l, up', down', x);
      SiteShift(l, up, down, x, turn, up', down', SiteOf(l, up', down', x));
    }
  }

  lemma {:induction false} SiteShift(l: Layout, up: seq<Row>, down: seq<Row>, x: Row, turn: Turn, up': seq<Row>, down': seq<Row>, s: Site)
    requires Rows(l, up, down) && down != []
    requires turn == TurnOf(l, up, down) && up' == RestUp(l, up, down) && down' == RestDown(l, up, down) && IsSite(l, up', down', x, s)
    ensures IsSite(l, up, down, x, Site(if turn == Drop then s.i else s.i + 1, if turn == Add then s.j else s.j + 1, s.turn))
  {
    AtBack(l, up, down, turn, up', down', s.i, s.j, s.turn);
  }

  /** Behind the first turn that row is where it was, and the first turn does not take it. */
  lemma {:induction false} SiteBehind(l: Layout, down: seq<Row>, x: Row, j: nat, first: Turn, down': seq<Row>, j': nat)
    requires Unique(l, down) && j < |down| && Clash(l, down[j], x) && (first == Add || j > 0)
    requires down' == (if first == Add then down else down[1..]) && j' == (if first == Add then j else j - 1)
    ensures first == Add || !Clash(l, down[0], x)
    ensures Unique(l, down') && j' < |down'| && down'[j'] == down[j]
  {
    RestUnique(l, down);
    if Clash(l, down[0], x) {
      NoOther(l, down, 0, x);
    }
  }

  /** The walk takes that row nowhere else. */
  lemma {:induction false} SiteOnly(l: Layout, up: seq<Row>, down: seq<Row>, x: Row, i: nat, j: nat, turn: Turn)
    requires Rows(l, up, down) && Unique(l, down) && j < |down| && Clash(l, down[j], x) && At(l, up, down, i, j, turn) && turn != Add
    ensures SiteOf(l, up, down, x) == Site(i, j, turn)
    decreases |up| + |down|
  {
    if i == 0 && j == 0 {
      SiteFirst(l, up, down, x, turn);
    } else {
      var first, up', down' := TurnOf(l, up, down), RestUp(l, up, down), RestDown(l, up, down);
      var i', j' := SiteStep(l, up, down, x, i, j, turn, first, up', down');
      RestShorter(l, up, down);
      SiteOnly(l, up', down', x, i', j', turn);
      SiteUnfold(l, up, down, x, first, up', down');
    }
  }

  lemma {:induction false} SiteFirst(l: Layout, up: seq<Row>, down: seq<Row>, x: Row, turn: Turn)
    requires Rows(l, up, down) && down != [] && Clash(l, down[0], x) && At(l, up, down, 0, 0, turn) && turn != Add
    ensures SiteOf(l, up, down, x) == Site(0, 0, turn)
  {
    AtHead(l, up, down, 0, 0, turn);
    SiteUnfold(l, up, down, x, turn, RestUp(l, up, down), RestDown(l, up, down));
  }

  /** Behind the first turn. */
  lemma {:induction false} SiteStep(l: Layout, up: seq<Row>, down: seq<Row>, x: Row, i: nat, j: nat, turn: Turn,
                                    first: Turn, up': seq<Row>, down': seq<Row>) returns (i': nat, j': nat)
    requires Rows(l, up, down) && Unique(l, down) && j < |down| && Clash(l, down[j], x) && At(l, up, down, i, j, turn) && (i > 0 || j > 0)
    requires first == TurnOf(l, up, down) && up' == RestUp(l, up, down) && down' == RestDown(l, up, down)
    ensures i == (if first == Drop then i' else i' + 1) && j == (if first == Add then j' else j' + 1)
    ensures first == Add || !Clash(l, down[0], x)
    ensures Unique(l, down') && j' < |down'| && Clash(l, down'[j'], x) && At(l, up', down', i', j', turn)
  {
    AtRest(l, up, down, i, j, turn);
    i', j' := if first == Drop then i else i - 1, if first == Add then j else j - 1;
    SiteBehind(l, down, x, j, first, down', j');
  }

  lemma {:induction false} RestUnique(l: Layout, rows: seq<Row>)
    requires Unique(l, rows)
    ensures rows != [] ==> Unique(l, rows[1..])
  {
  }

  // ---------- The law, for one key ----------

  /** The row with the key that was written before a point of the walk. */
  function Prior(l: Layout, up: seq<Row>, prior: Option<Row>, i: nat, x: Row): Option<Row>
    requires i <= |up|
  {
    OrElse(LastKey(l, up[..i], x), prior)
  }

  /** What the key has in the end is wrong if the turn that decides breaks it, and as it should be else. */
  ghost predicate Decided(l: Layout, up: seq<Row>, down: seq<Row>, prior: Option<Row>, x: Row, got: Option<Row>)
    requires Rows(l, up, down) && Touched(l, down, x)
  {
    var s, wanted := SiteOf(l, up, down, x), OrElse(Wanted(l, up, down, x), prior);
    && s.i <= |up| && s.j < |down|
    && var p := Prior(l, up, prior, s.i, x);
       if Breaks(l, p, up[s.i..], down[s.j], s.turn) then got == Wrong(p, down[s.j], s.turn) && got != wanted else got == wanted
  }

  /** The state before a walk: what was written for the key, or the downstream row that still has it. */
  ghost predicate Before(l: Layout, down: seq<Row>, prior: Option<Row>, x: Row) {
    Unique(l, down) && Touched(l, down, x) && (prior.Some? ==> Clash(l, x, prior.value))
  }

  lemma {:induction false} KeyLaw(l: Layout, up: seq<Row>, down: seq<Row>, prior: Option<Row>, x: Row)
    requires Rows(l, up, down) && ExactKeys(l) && Before(l, down, prior, x)
    ensures Decided(l, up, down, prior, x, Content(l, Merge(l, up, down), OrElse(prior, LastKey(l, down, x)), x))
    decreases |up| + |down|
  {
    var turn := TurnOf(l, up, down);
    TouchedHead(l, down, x);
    if turn != Add && Clash(l, down[0], x) {
      KeyHere(l, up, down, prior, x, turn);
    } else {
      KeyLater(l, up, down, prior, x, turn);
    }
  }

  /** The turn that decides is the first. */
  lemma {:induction false} KeyHere(l: Layout, up: seq<Row>, down: seq<Row>, prior: Option<Row>, x: Row, turn: Turn)
    requires Rows(l, up, down) && ExactKeys(l) && Before(l, down, prior, x)
    requires turn == TurnOf(l, up, down) && turn != Add && Clash(l, down[0], x)
    ensures Decided(l, up, down, prior, x, Content(l, Merge(l, up, down), OrElse(prior, LastKey(l, down, x)), x))
  {
    var up', down', d := RestUp(l, up, down), RestDown(l, up, down), down[0];
    var cur := OrElse(prior, Some(d));
    NoOther(l, down, 0, x);
    LastKeyTouched(l, down[1..], x);
    assert LastKey(l, down, x) == Some(d);
    ClashSwaps(l, d, x);
    var cur' := TurnContent(l, up, down, turn, cur, x);
    ContentTurn(l, up, down, turn, up', down', cur, x);
    NoDown(l, up', down', cur', x);
    WantedHere(l, up, down, x, turn, up', down');
    assert up[..0] == [] && up[0..] == up;
    HereDecided(l, up, down, prior, x, turn, OrElse(LastKey(l, up', x), cur'), OrElse(Wanted(l, up, down, x), prior));
  }

  lemma {:induction false} WantedHere(l: Layout, up: seq<Row>, down: seq<Row>, x: Row, turn: Turn, up': seq<Row>, down': seq<Row>)
    requires Rows(l, up, down) && ExactKeys(l) && down != [] && turn == TurnOf(l, up, down) && turn != Add && Clash(l, down[0], x)
    requires up' == RestUp(l, up, down) && down' == RestDown(l, up, down) && Wanted(l, up', down', x) == LastKey(l, up', x)
    ensures match turn
            case Drop => Wanted(l, up, down, x) == LastKey(l, up, x)
            case Match => Wanted(l, up, down, x) == OrElse(LastKey(l, up[1..], x), Some(down[0]))
            case Swap => Wanted(l, up, down, x) == OrElse(LastKey(l, up[1..], x), if Clash(l, x, up[0]) then Some(up[0]) else None)
            case Add => true
  {
    if turn == Match {
      SameClash(l, up[0], down[0], x);
      ClashSwaps(l, up[0], x);
    }
  }

  /** The cases of the turn. */
  lemma {:induction false} HereDecided(l: Layout, up: seq<Row>, down: seq<Row>, prior: Option<Row>, x: Row, turn: Turn, got: Option<Row>, wanted: Option<Row>)
    requires Rows(l, up, down) && Before(l, down, prior, x) && turn == TurnOf(l, up, down) && turn != Add && Clash(l, down[0], x)
    requires var d, rest := down[0], if turn == Drop then up else up[1..];
             && got == OrElse(LastKey(l, rest, x), TurnContent(l, up, down, turn, OrElse(prior, Some(d)), x))
             && wanted == OrElse(match turn
                                 case Drop => LastKey(l, up, x)
                                 case Match => OrElse(LastKey(l, rest, x), Some(d))
                                 case Swap => OrElse(LastKey(l, rest, x), if Clash(l, x, up[0]) then Some(up[0]) else None)
                                 case Add => None, prior)
    ensures if Breaks(l, prior, up, down[0], turn) then got == Wrong(prior, down[0], turn) && got != wanted else got == wanted
  {
    var d := down[0];
    SameKeyTouched(l, up, d, x);
    LastKeyTouched(l, up, x);
    if up != [] {
      SameKeyTouched(l, up[1..], d, x);
      LastKeyTouched(l, up[1..], x);
      TouchedHead(l, up, x);
      ClashSwaps(l, up[0], x);
    }
  }

  /** The turn that decides comes behind the first. */
  lemma {:induction false} KeyLater(l: Layout, up: seq<Row>, down: seq<Row>, prior: Option<Row>, x: Row, turn: Turn)
    requires Rows(l, up, down) && ExactKeys(l) && Before(l, down, prior, x)
    requires turn == TurnOf(l, up, down) && !(turn != Add && Clash(l, down[0], x))
    ensures Decided(l, up, down, prior, x, Content(l, Merge(l, up, down), OrElse(prior, LastKey(l, down, x)), x))
    decreases |up| + |down|, 0
  {
    var up', down' := RestUp(l, up, down), RestDown(l, up, down);
    var prior' := if turn != Drop && Clash(l, x, up[0]) then Some(up[0]) else prior;
    var cur := OrElse(prior, LastKey(l, down, x));
    TouchedHead(l, down, x);
    LastKeyTouched(l, down, x);
    RestUnique(l, down);
    RestShorter(l, up, down);
    ContentTurn(l, up, down, turn, up', down', cur, x);
    TurnLater(l, up, down, prior, x, turn, down');
    KeyLaw(l, up', down', prior', x);
    DecidedLater(l, up, down, prior, x, turn, up', down', prior', Content(l, Merge(l, up, down), cur, x));
  }

  lemma {:induction false} TurnLater(l: Layout, up: seq<Row>, down: seq<Row>, prior: Option<Row>, x: Row, turn: Turn, down': seq<Row>)
    requires Rows(l, up, down) && ExactKeys(l) && Before(l, down, prior, x)
    requires turn == TurnOf(l, up, down) && !(turn != Add && Clash(l, down[0], x)) && down' == RestDown(l, up, down)
    ensures var prior' := if turn != Drop && Clash(l, x, up[0]) then Some(up[0]) else prior;
            && Before(l, down', prior', x)
            && TurnContent(l, up, down, turn, OrElse(prior, LastKey(l, down, x)), x) == OrElse(prior', LastKey(l, down', x))
    ensures turn == Match ==> !Clash(l, x, up[0])
  {
    TouchedHead(l, down, x);
    LastKeyTouched(l, down, x);
    RestUnique(l, down);
    ClashSwaps(l, down[0], x);
    if turn == Match {
      SameClash(l, up[0], down[0], x);
      ClashSwaps(l, up[0], x);
    }
  }

  lemma {:induction false} DecidedLater(l: Layout, up: seq<Row>, down: seq<Row>, prior: Option<Row>, x: Row, turn: Turn,
                                        up': seq<Row>, down': seq<Row>, prior': Option<Row>, got: Option<Row>)
    requires Rows(l, up, down) && Touched(l, down, x) && turn == TurnOf(l, up, down) && !(turn != Add && Clash(l, down[0], x))
    requires up' == RestUp(l, up, down) && down' == RestDown(l, up, down) && Touched(l, down', x)
    requires prior' == (if turn != Drop && Clash(l, x, up[0]) then Some(up[0]) else prior) && (turn == Match ==> !Clash(l, x, up[0]))
    requires Decided(l, up', down', prior', x, got)
    ensures Decided(l, up, down, prior, x, got)
  {
    var s, s' := SiteOf(l, up, down, x), SiteOf(l, up', down', x);
    PriorLater(l, up, up', prior, prior', turn == Drop, s'.i, x);
    if turn != Drop {
      ClashSwaps(l, x, up[0]);
      assert up[1..][s'.i..] == up[s.i..];
    }
    if turn != Add {
      assert down[1..][s'.j] == down[s.j];
    }
  }

  lemma {:induction false} PriorLater(l: Layout, up: seq<Row>, up': seq<Row>, prior: Option<Row>, prior': Option<Row>, whole: bool, i: nat, x: Row)
    requires i <= |up'| && (whole || up != []) && up' == (if whole then up else up[1..])
    requires prior' == if !whole && Clash(l, x, up[0]) then Some(up[0]) else prior
    ensures Prior(l, up', prior', i, x) == Prior(l, up, prior, if whole then i else i + 1, x)
  {
    if !whole {
      assert up[..i + 1][1..] == up'[..i];
      ClashSwaps(l, x, up[0]);
    }
  }

  // ---------- The law ----------

  /** Other rows of a table: each key once, and no key of a downstream row. */
  ghost predicate Others(l: Layout, t: multiset<Row>, down: seq<Row>) {
    && (forall r: Row, s: Row :: r in t && s in t && Clash(l, r, s) ==> r == s && t[r] == 1)
    && (forall r: Row, j :: r in t && 0 <= j < |down| ==> !Clash(l, r, down[j]))
  }

  ghost function OtherRow(l: Layout, t: multiset<Row>, x: Row): Option<Row> {
    if exists r: Row :: r in t && Clash(l, x, r) then
      var r: Row :| r in t && Clash(l, x, r);
      Some(r)
    else None
  }

  lemma {:induction false} OtherHolds(l: Layout, t: multiset<Row>, down: seq<Row>, x: Row)
    requires Others(l, t, down)
    ensures Holds(l, t, OtherRow(l, t, x), x) && (OtherRow(l, t, x).Some? ==> !Touched(l, down, x))
  {
    var cur := OtherRow(l, t, x);
    forall y: Row | Clash(l, x, y)
      ensures t[y] == if cur == Some(y) then 1 else 0
    {
      if y in t {
        ClashMoves(l, x, y, cur.value);
        ClashMoves(l, x, cur.value, cur.value);
      }
    }
    if cur.Some? {
      forall j | 0 <= j < |down|
        ensures !Clash(l, down[j], x)
      {
        ClashMoves(l, x, cur.value, down[j]);
        ClashSwaps(l, down[j], x);
      }
    }
  }

  lemma {:induction false} HoldsBoth(l: Layout, t: multiset<Row>, cur: Option<Row>, s: multiset<Row>, cur': Option<Row>, x: Row)
    requires Holds(l, t, cur, x) && Holds(l, s, cur', x) && (cur.None? || cur'.None?)
    ensures Holds(l, t + s, OrElse(cur', cur), x)
  {
  }

  /** What the key has before and after the repair, as the table holds it. */
  lemma {:induction false} KeyRepaired(l: Layout, up: seq<Row>, down: seq<Row>, t: multiset<Row>, x: Row) returns (cur: Option<Row>)
    requires Rows(l, up, down) && ExactKeys(l) && Unique(l, down) && Others(l, t, down)
    ensures Holds(l, t, cur, x) && (Touched(l, down, x) ==> cur.None?)
    ensures Holds(l, ApplyKeyed(l, Merge(l, up, down), t + multiset(down)), Content(l, Merge(l, up, down), OrElse(LastKey(l, down, x), cur), x), x)
  {
    cur := OtherRow(l, t, x);
    OtherHolds(l, t, down, x);
    UniqueHolds(l, down, x);
    LastKeyTouched(l, down, x);
    HoldsBoth(l, t, cur, multiset(down), LastKey(l, down, x), x);
    HoldsAll(l, Merge(l, up, down), t + multiset(down), OrElse(LastKey(l, down, x), cur), x);
  }

  /** No turn breaks the key. */
  ghost predicate Sound(l: Layout, up: seq<Row>, down: seq<Row>, x: Row)
    requires Rows(l, up, down)
  {
    forall i: nat, j: nat, turn: Turn :: Fails(l, up, down, i, j, turn) ==> !Clash(l, down[j], x)
  }

  lemma {:induction false} SiteSound(l: Layout, up: seq<Row>, down: seq<Row>, x: Row)
    requires Rows(l, up, down) && Unique(l, down) && Touched(l, down, x)
    ensures var s := SiteOf(l, up, down, x);
            && s.i <= |up| && s.j < |down|
            && (Sound(l, up, down, x) <==> !Breaks(l, Prior(l, up, None, s.i, x), up[s.i..], down[s.j], s.turn))
  {
    var s := SiteOf(l, up, down, x);
    SiteAt(l, up, down, x);
    LastKeyMoves(l, up[..s.i], down[s.j], x);
    assert Fails(l, up, down, s.i, s.j, s.turn) <==> Breaks(l, Prior(l, up, None, s.i, x), up[s.i..], down[s.j], s.turn);
    forall i: nat, j: nat, turn: Turn | Fails(l, up, down, i, j, turn) && Clash(l, down[j], x)
      ensures Site(i, j, turn) == s
    {
      SiteOnly(l, up, down, x, i, j, turn);
    }
  }

  /**
   * With a unique key, for any two streams and whatever else is in the table: a row with a key that no turn breaks is
   * there as often as it should be.  Other rows stay if no upstream row has their key, and each upstream key ends with its
   * last row.
   */
  lemma {:induction false} KeyedLaw(l: Layout, up: seq<Row>, down: seq<Row>, t: multiset<Row>, x: Row)
    requires Rows(l, up, down) && ExactKeys(l) && Unique(l, down) && Others(l, t, down) && Keyed(l, x) && Sound(l, up, down, x)
    ensures ApplyKeyed(l, Merge(l, up, down), t + multiset(down))[x] == (if Touched(l, up, x) then 0 else t[x]) + Final(l, up, down)[x]
  {
    var cur := KeyRepaired(l, up, down, t, x);
    FinalHolds(l, up, down, x);
    WantedTouched(l, up, down, x);
    ClashSelf(l, x);
    LastKeyTouched(l, down, x);
    LastKeyTouched(l, up, x);
    if Touched(l, down, x) {
      SiteSound(l, up, down, x);
      KeyLaw(l, up, down, None, x);
    } else {
      NoDown(l, up, down, cur, x);
    }
  }

  /** Where a turn breaks the key, it ends with the wrong row or with none. */
  lemma {:induction false} BrokenLaw(l: Layout, up: seq<Row>, down: seq<Row>, t: multiset<Row>, x: Row, i: nat, j: nat, turn: Turn)
    requires Rows(l, up, down) && ExactKeys(l) && Unique(l, down) && Others(l, t, down)
    requires Fails(l, up, down, i, j, turn) && Clash(l, down[j], x)
    ensures ApplyKeyed(l, Merge(l, up, down), t + multiset(down))[x] == if Wrong(LastKey(l, up[..i], down[j]), down[j], turn) == Some(x) then 1 else 0
    ensures Wrong(LastKey(l, up[..i], down[j]), down[j], turn) != Wanted(l, up, down, x)
  {
    var cur := KeyRepaired(l, up, down, t, x);
    SiteOnly(l, up, down, x, i, j, turn);
    LastKeyMoves(l, up[..i], down[j], x);
    LastKeyTouched(l, down, x);
    ClashMoves(l, down[j], x, x);
    KeyLaw(l, up, down, None, x);
  }

  // ---------- Rows with NULL in the key ----------

  lemma {:induction false} NullUntouched(l: Layout, rows: seq<Row>, x: Row)
    requires !Keyed(l, x)
    ensures !Touched(l, rows, x) && forall y: Row :: !Clash(l, y, x) && !Clash(l, x, y)
  {
  }

  lemma {:induction false} ApplyTurn(l: Layout, first: seq<Op>, rest: seq<Op>, t: multiset<Row>)
    requires |first| <= 1
    ensures ApplyKeyed(l, first + rest, t) == ApplyKeyed(l, rest, if first == [] then t else ApplyOne(l, first[0], t))
    ensures Stale(first + rest) == (if first != [] && first[0].Replace? then multiset{first[0].over} else multiset{}) + Stale(rest)
  {
    if first == [] {
      assert first + rest == rest;
    } else {
      assert (first + rest)[0] == first[0] && (first + rest)[1..] == rest;
    }
  }

  function Here(here: bool): nat {
    if here then 1 else 0
  }

  /** The copies of a row with NULL in the key: one operation. */
  lemma {:induction false} NullOps(l: Layout, up: seq<Row>, down: seq<Row>, turn: Turn, table: multiset<Row>, n: nat, x: Row)
    requires Rows(l, up, down) && (up != [] || down != []) && turn == TurnOf(l, up, down)
    requires !Keyed(l, x) && table[x] == n + multiset(down)[x]
    ensures var first, down' := OpsOf(l, up, down), if turn == Add then down else down[1..];
            (if first == [] then table else ApplyOne(l, first[0], table))[x] ==
            n + Here((turn == Add || turn == Swap) && up[0] == x) + Here((turn == Match || turn == Swap) && down[0] == x) + multiset(down')[x]
  {
    if turn == Add || turn == Swap {
      NullWritten(l, table, up[0], x);
    }
    if turn != Add {
      HeadBag(down);
    }
  }

  lemma {:induction false} NullWritten(l: Layout, table: multiset<Row>, u: Row, x: Row)
    requires !Keyed(l, x)
    ensures Written(l, table, u)[x] == table[x] + Here(u == x)
  {
    NullUntouched(l, [], x);
  }

  lemma {:induction false} NullFinal(l: Layout, up: seq<Row>, down: seq<Row>, turn: Turn, rest: multiset<Row>, x: Row)
    requires Rows(l, up, down) && ExactKeys(l) && (up != [] || down != []) && turn == TurnOf(l, up, down) && !Keyed(l, x)
    requires rest == Final(l, RestUp(l, up, down), RestDown(l, up, down))
    ensures Final(l, up, down)[x] ==
            Here((turn == Add || turn == Swap) && up[0] == x) + Here(turn == Match && down[0] == x) + rest[x]
  {
    if up != [] {
      if turn == Match {
        SameClash(l, up[0], down[0], x);
      }
      if turn != Drop && Standing(l, up, down) == x {
        NullUntouched(l, up[1..], up[0]);
      }
    }
  }

  /** For any two streams: of a row with NULL in the key there are the copies there should be, and those a replace was meant for. */
  lemma {:induction false} NullLaw(l: Layout, up: seq<Row>, down: seq<Row>, table: multiset<Row>, n: nat, x: Row)
    requires Rows(l, up, down) && ExactKeys(l) && !Keyed(l, x) && table[x] == n + multiset(down)[x]
    ensures ApplyKeyed(l, Merge(l, up, down), table)[x] == n + Final(l, up, down)[x] + Stale(Merge(l, up, down))[x]
    decreases |up| + |down|
  {
    if up == [] && down == [] {
      MergeNothing(l);
    } else {
      var turn, up', down', first := TurnOf(l, up, down), RestUp(l, up, down), RestDown(l, up, down), OpsOf(l, up, down);
      MergeTurn(l, up, down);
      ApplyTurn(l, first, Merge(l, up', down'), table);
      NullOps(l, up, down, turn, table, n, x);
      NullFinal(l, up, down, turn, Final(l, up', down'), x);
      RestShorter(l, up, down);
      NullLaw(l, up', down', if first == [] then table else ApplyOne(l, first[0], table),
              n + Here((turn == Add || turn == Swap) && up[0] == x) + Here((turn == Match || turn == Swap) && down[0] == x), x);
    }
  }

  /** A downstream row that the walk replaces by another one. */
  ghost predicate Swapped(l: Layout, up: seq<Row>, down: seq<Row>, x: Row)
    requires Rows(l, up, down)
  {
    exists i: nat, j: nat :: j < |down| && At(l, up, down, i, j, Swap) && down[j] == x
  }

  lemma {:induction false} SwappedRest(l: Layout, up: seq<Row>, down: seq<Row>, x: Row, turn: Turn, up': seq<Row>, down': seq<Row>)
    requires Rows(l, up, down) && Swapped(l, up, down, x)
    requires turn == TurnOf(l, up, down) && up' == RestUp(l, up, down) && down' == RestDown(l, up, down)
    ensures (turn == Swap && down[0] == x) || Swapped(l, up', down', x)
  {
    var i: nat, j: nat :| j < |down| && At(l, up, down, i, j, Swap) && down[j] == x;
    AtHead(l, up, down, i, j, Swap);
    if i > 0 || j > 0 {
      AtRest(l, up, down, i, j, Swap);
      assert down'[if turn == Add then j else j - 1] == x;
    }
  }

  lemma {:induction false} SwappedBack(l: Layout, up: seq<Row>, down: seq<Row>, x: Row, turn: Turn, up': seq<Row>, down': seq<Row>)
    requires Rows(l, up, down) && (up != [] || down != [])
    requires turn == TurnOf(l, up, down) && up' == RestUp(l, up, down) && down' == RestDown(l, up, down)
    requires (turn == Swap && down[0] == x) || Swapped(l, up', down', x)
    ensures Swapped(l, up, down, x)
  {
    if turn == Swap && down[0] == x {
      AtHead(l, up, down, 0, 0, Swap);
    } else {
      var i: nat, j: nat :| j < |down'| && At(l, up', down', i, j, Swap) && down'[j] == x;
      AtBack(l, up, down, turn, up', down', i, j, Swap);
    }
  }

  lemma {:induction false} StaleAt(l: Layout, up: seq<Row>, down: seq<Row>, x: Row)
    requires Rows(l, up, down)
    ensures x in Stale(Merge(l, up, down)) <==> Swapped(l, up, down, x)
    decreases |up| + |down|
  {
    if up == [] && down == [] {
      MergeNothing(l);
    } else {
      var up', down' := RestUp(l, up, down), RestDown(l, up, down);
      MergeTurn(l, up, down);
      ApplyTurn(l, OpsOf(l, up, down), Merge(l, up', down'), multiset{});
      RestShorter(l, up, down);
      StaleAt(l, up', down', x);
      if Swapped(l, up, down, x) {
        SwappedRest(l, up, down, x, TurnOf(l, up, down), up', down');
      }
      if x in Stale(Merge(l, up, down)) {
        SwappedBack(l, up, down, x, TurnOf(l, up, down), up', down');
      }
    }
  }

  // ---------- The repair ----------

  /** No turn of the walk breaks a key. */
  ghost predicate NoFailure(l: Layout, up: seq<Row>, down: seq<Row>)
    requires Rows(l, up, down)
  {
    forall i: nat, j: nat, turn: Turn :: !Fails(l, up, down, i, j, turn)
  }

  /**
   * With a unique key, over nullable columns or not, and for any two streams: applied to the rows of the chunk, the
   * statements leave exactly the upstream rows (of each key the last) if and only if no turn of the walk breaks a key.
   */
  lemma {:induction false} KeyedRepairs(l: Layout, up: seq<Row>, down: seq<Row>)
    requires Rows(l, up, down) && ExactKeys(l) && Unique(l, down)
    ensures ApplyKeyed(l, Merge(l, up, down), multiset(down)) == Final(l, up, down) <==> NoFailure(l, up, down)
  {
    var got, wanted := ApplyKeyed(l, Merge(l, up, down), multiset(down)), Final(l, up, down);
    if NoFailure(l, up, down) {
      forall x: Row
        ensures got[x] == wanted[x]
      {
        RowRepaired(l, up, down, x);
      }
    }
    if i: nat, j: nat, turn: Turn :| Fails(l, up, down, i, j, turn) {
      RowBroken(l, up, down, i, j, turn);
    }
  }

  lemma {:induction false} RowRepaired(l: Layout, up: seq<Row>, down: seq<Row>, x: Row)
    requires Rows(l, up, down) && ExactKeys(l) && Unique(l, down) && NoFailure(l, up, down)
    ensures ApplyKeyed(l, Merge(l, up, down), multiset(down))[x] == Final(l, up, down)[x]
  {
    if Keyed(l, x) {
      KeyedLaw(l, up, down, multiset{}, x);
      assert multiset{} + multiset(down) == multiset(down);
    } else {
      NullLaw(l, up, down, multiset(down), 0, x);
      StaleAt(l, up, down, x);
      if i: nat, j: nat :| j < |down| && At(l, up, down, i, j, Swap) && down[j] == x {
        NullFails(l, up, down, i, j);
      }
    }
  }

  /** A replace over a row with NULL in the key breaks it. */
  lemma {:induction false} NullFails(l: Layout, up: seq<Row>, down: seq<Row>, i: nat, j: nat)
    requires Rows(l, up, down) && j < |down| && !Keyed(l, down[j]) && At(l, up, down, i, j, Swap)
    ensures Fails(l, up, down, i, j, Swap)
  {
    NullUntouched(l, up[i..], down[j]);
    NullUntouched(l, up[..i], down[j]);
    LastKeyTouched(l, up[..i], down[j]);
  }

  lemma {:induction false} RowBroken(l: Layout, up: seq<Row>, down: seq<Row>, i: nat, j: nat, turn: Turn)
    requires Rows(l, up, down) && ExactKeys(l) && Unique(l, down) && Fails(l, up, down, i, j, turn)
    ensures ApplyKeyed(l, Merge(l, up, down), multiset(down)) != Final(l, up, down)
  {
    var got, wanted, d := ApplyKeyed(l, Merge(l, up, down), multiset(down)), Final(l, up, down), down[j];
    if Keyed(l, d) {
      var wrong := Wrong(LastKey(l, up[..i], d), d, turn);
      var right := Wanted(l, up, down, d);
      assert multiset{} + multiset(down) == multiset(down);
      ClashSelf(l, d);
      LastKeyTouched(l, up[..i], d);
      FinalHolds(l, up, down, d);
      BrokenLaw(l, up, down, multiset{}, d, i, j, turn);
      var x := if wrong.Some? then wrong.value else right.value;
      ClashSwaps(l, d, x);
      BrokenLaw(l, up, down, multiset{}, x, i, j, turn);
      assert got[x] != wanted[x];
    } else {
      NullTurn(l, up, down, i, j, turn);
      NullLaw(l, up, down, multiset(down), 0, d);
      StaleAt(l, up, down, d);
      assert got[d] != wanted[d];
    }
  }

  lemma {:induction false} NullTurn(l: Layout, up: seq<Row>, down: seq<Row>, i: nat, j: nat, turn: Turn)
    requires Rows(l, up, down) && Fails(l, up, down, i, j, turn) && !Keyed(l, down[j])
    ensures turn == Swap
  {
    NullUntouched(l, up[..i], down[j]);
    LastKeyTouched(l, up[..i], down[j]);
  }
}
