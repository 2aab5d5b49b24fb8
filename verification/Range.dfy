/**
 * The chunk range object (sync_diff_inspector/chunk/chunk.go): a list of column bounds that is built up column by
 * column, copied, and compiled to a condition.  The object's methods are tied to functions on lists of bounds, and those
 * to intervals of keys: setting every index column on one side replaces that end of the interval.
 */
module Ranges {
  import opened Wrappers
  import opened Keys
  import opened Cover
  import opened Chunks

  datatype Kind = Bucket | Random | Limit | Others | Empty

  /** A snapshot of a range: what the checkpoint, the report and the consumers see. */
  datatype Chunk = Chunk(id: ChunkID, kind: Kind, bounds: seq<Bound>, isFirst: bool, isLast: bool)

  /** Last of its table: flagged so, or no column has an upper value. */
  predicate IsLastChunkForTable(c: Chunk) {
    c.isLast || forall i :: 0 <= i < |c.bounds| ==> !c.bounds[i].hasUpper
  }

  predicate IsFirstChunkForTable(c: Chunk) {
    c.isFirst || forall i :: 0 <= i < |c.bounds| ==> !c.bounds[i].hasLower
  }

  // ---------- Updating bounds ----------

  /** The position of a column among the bounds. */
  function FindBound(bounds: seq<Bound>, column: string): (r: Option<nat>)
    ensures r.Some? ==> r.value < |bounds| && bounds[r.value].column == column
    ensures r.None? ==> forall i :: 0 <= i < |bounds| ==> bounds[i].column != column
  {
    var n := |bounds|;
    if n == 0 then None
    else if bounds[n - 1].column == column then Some(n - 1)
    else FindBound(bounds[..n - 1], column)
  }

  /** The offset table that goes with a list of bounds. */
  function Offsets(bounds: seq<Bound>): map<string, nat> {
    var n := |bounds|;
    if n == 0 then map[] else Offsets(bounds[..n - 1])[bounds[n - 1].column := n - 1]
  }

  lemma {:induction false} OffsetsFind(bounds: seq<Bound>, column: string)
    ensures column in Offsets(bounds) <==> FindBound(bounds, column).Some?
    ensures column in Offsets(bounds) ==> FindBound(bounds, column) == Some(Offsets(bounds)[column])
  {
    if bounds != [] {
      OffsetsFind(bounds[..|bounds| - 1], column);
    }
  }

  /** The offsets depend on the columns only. */
  lemma {:induction false} OffsetsSame(a: seq<Bound>, b: seq<Bound>)
    requires |a| == |b| && forall i :: 0 <= i < |a| ==> a[i].column == b[i].column
    ensures Offsets(a) == Offsets(b)
  {
    if a != [] {
      OffsetsSame(a[..|a| - 1], b[..|a| - 1]);
    }
  }

  function Changed(b: Bound, lower: Value, upper: Value, updateLower: bool, updateUpper: bool): Bound {
    Bound(b.column,
          if updateLower then lower else b.lower, if updateUpper then upper else b.upper,
          b.hasLower || updateLower, b.hasUpper || updateUpper)
  }

  /** The bounds after one column's values are set; an unknown column is added at the end. */
  function Updated(bounds: seq<Bound>, column: string, lower: Value, upper: Value, updateLower: bool, updateUpper: bool): seq<Bound>
  {
    match FindBound(bounds, column)
    case Some(i) => bounds[i := Changed(bounds[i], lower, upper, updateLower, updateUpper)]
    case None => bounds + [Bound(column, lower, upper, updateLower, updateUpper)]
  }

  /** The bounds after the first `n` columns are set in turn. */
  function UpdatedAll(bounds: seq<Bound>, columns: seq<string>, lower: Key, upper: Key, updateLower: bool, updateUpper: bool, n: nat): seq<Bound>
    requires n <= |columns| && |lower| == |upper| == |columns|
  {
    if n == 0 then bounds
    else Updated(UpdatedAll(bounds, columns, lower, upper, updateLower, updateUpper, n - 1),
                 columns[n - 1], lower[n - 1], upper[n - 1], updateLower, updateUpper)
  }

  function Blank(n: nat): Key { seq(n, i => NO_VALUE) }

  /** The values given for a side, or empty values on a side that stays as it is. */
  function Padded(values: Key, given: bool, n: nat): (r: Key)
    requires given ==> |values| == n
    ensures |r| == n
  {
    if given then values else Blank(n)
  }

  lemma {:induction false} PaddedAt(values: Key, given: bool, n: nat, j: nat)
    requires (given ==> |values| == n) && j < n
    ensures Padded(values, given, n)[j] == if given then values[j] else NO_VALUE
  {
  }

  lemma {:induction false} UpdatedAllNext(bounds: seq<Bound>, columns: seq<string>, lower: Key, upper: Key, updateLower: bool, updateUpper: bool, n: nat)
    requires n < |columns| && |lower| == |upper| == |columns|
    ensures UpdatedAll(bounds, columns, lower, upper, updateLower, updateUpper, n + 1)
            == Updated(UpdatedAll(bounds, columns, lower, upper, updateLower, updateUpper, n),
                       columns[n], lower[n], upper[n], updateLower, updateUpper)
  {
  }

  predicate Distinct(columns: seq<string>) {
    forall i, j :: 0 <= i < j < |columns| ==> columns[i] != columns[j]
  }

  /** Either no column is bounded yet, or exactly these, in this order. */
  predicate Over(bounds: seq<Bound>, columns: seq<string>) {
    bounds == [] || Columns(bounds) == columns
  }

  /** The first `n` columns, bounded anew. */
  function Anew(columns: seq<string>, lower: Key, upper: Key, updateLower: bool, updateUpper: bool, n: nat): seq<Bound>
    requires n <= |columns| && |lower| == |upper| == |columns|
  {
    seq(n, i requires 0 <= i < n => Bound(columns[i], lower[i], upper[i], updateLower, updateUpper))
  }

  lemma {:induction false} AnewNext(columns: seq<string>, lower: Key, upper: Key, updateLower: bool, updateUpper: bool, n: nat)
    requires n < |columns| && |lower| == |upper| == |columns| && Distinct(columns)
    ensures Updated(Anew(columns, lower, upper, updateLower, updateUpper, n), columns[n], lower[n], upper[n], updateLower, updateUpper) ==
            Anew(columns, lower, upper, updateLower, updateUpper, n + 1)
  {
    var before := Anew(columns, lower, upper, updateLower, updateUpper, n);
    assert FindBound(before, columns[n]).None?;
  }

  /** Setting all columns in turn adds them in order when there were none. */
  lemma {:induction false} UpdatedAllFresh(columns: seq<string>, lower: Key, upper: Key, updateLower: bool, updateUpper: bool, n: nat)
    requires n <= |columns| && |lower| == |upper| == |columns| && Distinct(columns)
    ensures UpdatedAll([], columns, lower, upper, updateLower, updateUpper, n) == Anew(columns, lower, upper, updateLower, updateUpper, n)
  {
    if n > 0 {
      UpdatedAllFresh(columns, lower, upper, updateLower, updateUpper, n - 1);
      AnewNext(columns, lower, upper, updateLower, updateUpper, n - 1);
    }
  }

  lemma {:induction false} FindAt(bounds: seq<Bound>, columns: seq<string>, i: nat)
    requires Distinct(columns) && Columns(bounds) == columns && i < |columns|
    ensures i < |bounds| && FindBound(bounds, columns[i]) == Some(i)
  {
    assert |bounds| == |Columns(bounds)|;
    assert forall k :: 0 <= k < |bounds| ==> bounds[k].column == Columns(bounds)[k];
  }

  /** The first `n` bounds changed, the others not yet. */
  function Partly(bounds: seq<Bound>, lower: Key, upper: Key, updateLower: bool, updateUpper: bool, n: nat): seq<Bound>
    requires |lower| == |upper| == |bounds|
  {
    seq(|bounds|, i requires 0 <= i < |bounds| =>
      if i < n then Changed(bounds[i], lower[i], upper[i], updateLower, updateUpper) else bounds[i])
  }

  lemma {:induction false} UpdateNext(bounds: seq<Bound>, columns: seq<string>, lower: Key, upper: Key, updateLower: bool, updateUpper: bool, n: nat)
    requires |lower| == |upper| == |bounds| && n < |bounds|
    requires Distinct(columns) && Columns(bounds) == columns
    ensures Updated(Partly(bounds, lower, upper, updateLower, updateUpper, n), columns[n], lower[n], upper[n], updateLower, updateUpper) ==
            Partly(bounds, lower, upper, updateLower, updateUpper, n + 1)
  {
    var before := Partly(bounds, lower, upper, updateLower, updateUpper, n);
    assert Columns(before) == columns by {
      assert forall i :: 0 <= i < |bounds| ==> Columns(bounds)[i] == bounds[i].column;
    }
    FindAt(before, columns, n);
  }

  /** Setting all columns in turn changes each bound once when all were there already. */
  lemma {:induction false} UpdatedAllThere(bounds: seq<Bound>, columns: seq<string>, lower: Key, upper: Key,
                                           updateLower: bool, updateUpper: bool, n: nat)
    requires n <= |columns| && |lower| == |upper| == |columns| == |bounds|
    requires Distinct(columns) && Columns(bounds) == columns
    ensures UpdatedAll(bounds, columns, lower, upper, updateLower, updateUpper, n) ==
            Partly(bounds, lower, upper, updateLower, updateUpper, n)
  {
    if n > 0 {
      UpdatedAllThere(bounds, columns, lower, upper, updateLower, updateUpper, n - 1);
      UpdateNext(bounds, columns, lower, upper, updateLower, updateUpper, n - 1);
    }
  }

  lemma {:induction false} AnewInterval(columns: seq<string>, lower: Key, upper: Key, updateLower: bool, updateUpper: bool)
    requires |lower| == |upper| == |columns| && columns != []
    ensures var r := Anew(columns, lower, upper, updateLower, updateUpper, |columns|);
            && Uniform(r) && Columns(r) == columns && r != []
            && IntervalOf(r) == Interval(if updateLower then Some(lower) else None, if updateUpper then Some(upper) else None)
  {
    var r := Anew(columns, lower, upper, updateLower, updateUpper, |columns|);
    assert Lowers(r) == lower && Uppers(r) == upper;
  }

  lemma {:induction false} PartlyInterval(bounds: seq<Bound>, lower: Key, upper: Key, updateLower: bool, updateUpper: bool)
    requires |lower| == |upper| == |bounds| && bounds != [] && Uniform(bounds)
    ensures var r := Partly(bounds, lower, upper, updateLower, updateUpper, |bounds|);
            && Uniform(r) && Columns(r) == Columns(bounds) && r != []
            && IntervalOf(r) == Interval(if updateLower then Some(lower) else IntervalOf(bounds).lower,
                                         if updateUpper then Some(upper) else IntervalOf(bounds).upper)
  {
    var r := Partly(bounds, lower, upper, updateLower, updateUpper, |bounds|);
    assert Lowers(r) == if updateLower then lower else Lowers(bounds);
    assert Uppers(r) == if updateUpper then upper else Uppers(bounds);
  }

  /** Setting all columns replaces the updated end of the interval and keeps the other. */
  lemma {:induction false} UpdatedAllInterval(bounds: seq<Bound>, columns: seq<string>, lower: Key, upper: Key, updateLower: bool, updateUpper: bool)
    requires |lower| == |upper| == |columns| && columns != []
    requires Distinct(columns) && Over(bounds, columns) && Uniform(bounds)
    ensures var r := UpdatedAll(bounds, columns, lower, upper, updateLower, updateUpper, |columns|);
            && Uniform(r) && Columns(r) == columns && r != []
            && IntervalOf(r) == Interval(if updateLower then Some(lower) else IntervalOf(bounds).lower,
                                         if updateUpper then Some(upper) else IntervalOf(bounds).upper)
  {
    if bounds != [] {
      assert |bounds| == |Columns(bounds)|;
      UpdatedAllThere(bounds, columns, lower, upper, updateLower, updateUpper, |columns|);
      PartlyInterval(bounds, lower, upper, updateLower, updateUpper);
    } else {
      UpdatedAllFresh(columns, lower, upper, updateLower, updateUpper, |columns|);
      AnewInterval(columns, lower, upper, updateLower, updateUpper);
    }
  }

  // ---------- The object ----------

  class Range {
    var index: ChunkID
    var kind: Kind
    var bounds: seq<Bound>
    var isFirst: bool
    var isLast: bool
    var where: Cond
    var args: seq<Value>
    var columnOffset: map<string, nat>

    ghost predicate Valid()
      reads `bounds, `columnOffset
    {
      columnOffset == Offsets(bounds)
    }

    function View(): Chunk
      reads `index, `kind, `bounds, `isFirst, `isLast
    {
      Chunk(index, kind, bounds, isFirst, isLast)
    }

    constructor ()
      ensures Valid() && bounds == [] && !isFirst && !isLast
    {
      index := ChunkID(0, 0, 0, 0, 0);
      kind := Others;
      bounds, columnOffset := [], map[];
      isFirst, isLast := false, false;
      where, args := TrueCond, [];
    }

    method AddBound(bound: Bound)
      requires Valid()
      modifies `bounds, `columnOffset
      ensures Valid() && bounds == old(bounds) + [bound]
    {
      assert (bounds + [bound])[..|bounds|] == bounds;
      bounds := bounds + [bound];
      columnOffset := columnOffset[bound.column := |bounds| - 1];
    }

    method Update(column: string, lower: Value, upper: Value, updateLower: bool, updateUpper: bool)
      requires Valid()
      modifies `bounds, `columnOffset
      ensures Valid() && bounds == Updated(old(bounds), column, lower, upper, updateLower, updateUpper)
    {
      OffsetsFind(bounds, column);
      ghost var was := bounds;
      if column in columnOffset {
        var offset := columnOffset[column];
        if updateLower {
          bounds := bounds[offset := bounds[offset].(lower := lower, hasLower := true)];
        }
        if updateUpper {
          bounds := bounds[offset := bounds[offset].(upper := upper, hasUpper := true)];
        }
        OffsetsSame(was, bounds);
        return;
      }
      AddBound(Bound(column, lower, upper, updateLower, updateUpper));
    }

    /** Sets the values of all index columns in turn, on the side or sides wanted. */
    method UpdateColumns(columns: seq<string>, lowerValues: Key, upperValues: Key, updateLower: bool, updateUpper: bool)
      requires Valid()
      requires updateLower ==> |lowerValues| == |columns|
      requires updateUpper ==> |upperValues| == |columns|
      modifies `bounds, `columnOffset
      ensures Valid()
      ensures bounds == UpdatedAll(old(bounds), columns, Padded(lowerValues, updateLower, |columns|), Padded(upperValues, updateUpper, |columns|),
                                   updateLower, updateUpper, |columns|)
    {
      ghost var was := bounds;
      ghost var lows, highs := Padded(lowerValues, updateLower, |columns|), Padded(upperValues, updateUpper, |columns|);
      for j := 0 to |columns|
        invariant Valid() && bounds == UpdatedAll(was, columns, lows, highs, updateLower, updateUpper, j)
      {
        PaddedAt(lowerValues, updateLower, |columns|, j);
        PaddedAt(upperValues, updateUpper, |columns|, j);
        UpdatedAllNext(was, columns, lows, highs, updateLower, updateUpper, j);
        Update(columns[j], if updateLower then lowerValues[j] else NO_VALUE, if updateUpper then upperValues[j] else NO_VALUE,
               updateLower, updateUpper);
      }
    }

    /** Starts every column where a saved range's bounds end. */
    method UpdateLowers(saved: seq<Bound>)
      requires Valid()
      modifies `bounds, `columnOffset
      ensures Valid()
      ensures bounds == UpdatedAll(old(bounds), Columns(saved), Uppers(saved), Blank(|saved|), true, false, |saved|)
    {
      ghost var was := bounds;
      for j := 0 to |saved|
        invariant Valid() && bounds == UpdatedAll(was, Columns(saved), Uppers(saved), Blank(|saved|), true, false, j)
      {
        Update(saved[j].column, saved[j].upper, NO_VALUE, true, false);
      }
    }

    /** A new range with the same bounds; the identity and the flags are not copied. */
    method Copy() returns (c: Range)
      requires Valid()
      ensures fresh(c) && c.Valid() && c.bounds == bounds && !c.isFirst && !c.isLast
    {
      c := new Range();
      for i := 0 to |bounds|
        invariant c.Valid() && c.bounds == bounds[..i] && !c.isFirst && !c.isLast
      {
        c.AddBound(bounds[i]);
      }
    }

    /** Sets the identity and the kind, and compiles the condition. */
    method Init(kind: Kind, id: ChunkID)
      requires Valid()
      modifies `index, `kind, `where, `args
      ensures View() == old(View()).(id := id, kind := kind)
      ensures Compiled()
    {
      where, args := ToString();
      index := id;
      this.kind := kind;
    }

    /** Compiles the bounds to a condition and its arguments. */
    method ToString() returns (cond: Cond, arguments: seq<Value>)
      ensures (cond, arguments) == Compile(bounds)
    {
      var same: seq<Cond>, sameArgs: seq<Value> := [], [];
      var i := 0;
      while i < |bounds| && bounds[i].hasLower && bounds[i].hasUpper && bounds[i].lower == bounds[i].upper
        invariant 0 <= i <= |bounds|
        invariant forall k :: 0 <= k < i ==> SameBound(bounds[k])
        invariant same == Equalities(SameItems(bounds[..i])) && sameArgs == ItemArgs(SameItems(bounds[..i]))
      {
        same := same + [Cmp(bounds[i].column, Eq)];
        sameArgs := sameArgs + [bounds[i].lower];
        i := i + 1;
      }
      if i == |bounds| && i > 0 {
        return FalseCond, [];
      }
      var lowerCondition, lowerArgs, upperCondition, upperArgs := CollectSides(bounds, i);
      cond, arguments := Join(same, sameArgs, lowerCondition, lowerArgs, upperCondition, upperArgs);
    }

    /** Whether the stored condition is the one the bounds compile to. */
    ghost predicate Compiled()
      reads `where, `args, `bounds
    {
      (where, args) == Compile(bounds)
    }
  }

  /** The terms of both sides, over the columns from `start` on. */
  method CollectSides(bounds: seq<Bound>, start: nat)
    returns (lowerCondition: seq<Cond>, lowerArgs: seq<Value>, upperCondition: seq<Cond>, upperArgs: seq<Value>)
    requires start <= |bounds|
    ensures lowerCondition == Terms(LowerItems(bounds, start, |bounds|)) && lowerArgs == TermArgs(LowerItems(bounds, start, |bounds|))
    ensures upperCondition == Terms(UpperItems(bounds, start, |bounds|)) && upperArgs == TermArgs(UpperItems(bounds, start, |bounds|))
  {
    lowerCondition, upperCondition, lowerArgs, upperArgs := [], [], [], [];
    var preLower: seq<Cond>, preUpper: seq<Cond> := [], [];
    var preArgsLower: seq<Value>, preArgsUpper: seq<Value> := [], [];
    for i := start to |bounds|
      invariant Built(LowerItems(bounds, start, i), lowerCondition, lowerArgs, preLower, preArgsLower)
      invariant Built(UpperItems(bounds, start, i), upperCondition, upperArgs, preUpper, preArgsUpper)
    {
      var bound := bounds[i];
      var upperSymbol := if i == |bounds| - 1 then Le else Lt;
      if bound.hasLower {
        lowerCondition, lowerArgs, preLower, preArgsLower :=
          AddTerm(LowerItems(bounds, start, i), lowerCondition, lowerArgs, preLower, preArgsLower, bound.column, Gt, bound.lower);
      } else {
        assert LowerItems(bounds, start, i) + [] == LowerItems(bounds, start, i);
      }
      if bound.hasUpper {
        upperCondition, upperArgs, preUpper, preArgsUpper :=
          AddTerm(UpperItems(bounds, start, i), upperCondition, upperArgs, preUpper, preArgsUpper, bound.column, upperSymbol, bound.upper);
      } else {
        assert UpperItems(bounds, start, i) + [] == UpperItems(bounds, start, i);
      }
    }
  }

  /** Joins the shared prefix and the two sides, leaving out what is empty. */
  method Join(same: seq<Cond>, sameArgs: seq<Value>, lowerCondition: seq<Cond>, lowerArgs: seq<Value>,
              upperCondition: seq<Cond>, upperArgs: seq<Value>) returns (cond: Cond, arguments: seq<Value>)
    ensures (cond, arguments) == Assemble(same, sameArgs, lowerCondition, lowerArgs, upperCondition, upperArgs)
  {
    if |same| == 0 {
      if |upperCondition| == 0 && |lowerCondition| == 0 {
        return TrueCond, [];
      }
      if |upperCondition| == 0 {
        return AnyOf(lowerCondition), lowerArgs;
      }
      if |lowerCondition| == 0 {
        return AnyOf(upperCondition), upperArgs;
      }
      return AllOf([AnyOf(lowerCondition), AnyOf(upperCondition)]), lowerArgs + upperArgs;
    }
    if |upperCondition| == 0 && |lowerCondition| == 0 {
      return AllOf(same), sameArgs;
    }
    if |upperCondition| == 0 {
      return AllOf([AllOf(same), AnyOf(lowerCondition)]), sameArgs + lowerArgs;
    }
    if |lowerCondition| == 0 {
      return AllOf([AllOf(same), AnyOf(upperCondition)]), sameArgs + upperArgs;
    }
    return AllOf([AllOf(same), AnyOf(lowerCondition), AnyOf(upperCondition)]), sameArgs + lowerArgs + upperArgs;
  }

  /** What the loop has accumulated for one side. */
  predicate Built(items: seq<Item>, conds: seq<Cond>, arguments: seq<Value>, pre: seq<Cond>, preArgs: seq<Value>) {
    conds == Terms(items) && arguments == TermArgs(items) && pre == Equalities(items) && preArgs == ItemArgs(items)
  }

  lemma {:induction false} BuiltSnoc(items: seq<Item>, item: Item)
    ensures var all := items + [item];
            && Terms(all) == Terms(items) + [if items == [] then Cmp(item.column, item.op) else AllOf(Equalities(items) + [Cmp(item.column, item.op)])]
            && TermArgs(all) == TermArgs(items) + ItemArgs(items) + [item.arg]
            && Equalities(all) == Equalities(items) + [Cmp(item.column, Eq)]
            && ItemArgs(all) == ItemArgs(items) + [item.arg]
  {
    var all := items + [item];
    assert all[..|all| - 1] == items;
    TermsSnoc(all);
    assert TermArgs(items) + (ItemArgs(items) + [item.arg]) == TermArgs(items) + ItemArgs(items) + [item.arg];
  }

  /** Adds one column to one side: a new term, and one more equality for the terms to come. */
  method AddTerm(ghost items: seq<Item>, conds: seq<Cond>, arguments: seq<Value>, pre: seq<Cond>, preArgs: seq<Value>,
                 column: string, symbol: Op, value: Value)
    returns (conds': seq<Cond>, arguments': seq<Value>, pre': seq<Cond>, preArgs': seq<Value>)
    requires Built(items, conds, arguments, pre, preArgs)
    ensures Built(items + [Item(column, symbol, value)], conds', arguments', pre', preArgs')
  {
    BuiltSnoc(items, Item(column, symbol, value));
    if |pre| > 0 {
      conds' := conds + [AllOf(pre + [Cmp(column, symbol)])];
      arguments' := arguments + preArgs + [value];
    } else {
      conds' := conds + [Cmp(column, symbol)];
      arguments' := arguments + [value];
    }
    pre' := pre + [Cmp(column, Eq)];
    preArgs' := preArgs + [value];
  }

  ghost function Views(chunks: seq<Range>): seq<Chunk>
    reads chunks
  {
    seq(|chunks|, i requires 0 <= i < |chunks| reads chunks => chunks[i].View())
  }

  ghost predicate AllValid(chunks: seq<Range>)
    reads chunks
  {
    && (forall i :: 0 <= i < |chunks| ==> chunks[i].Valid())
    && (forall i, j :: 0 <= i < j < |chunks| ==> chunks[i] != chunks[j])
  }

  /** Consecutive chunk indexes within one bucket group. */
  function Numbered(chunks: seq<Chunk>, kind: Kind, firstBucket: int, lastBucket: int, index: int, chunkCnt: int): seq<Chunk> {
    seq(|chunks|, i requires 0 <= i < |chunks| =>
      chunks[i].(id := ChunkID(0, firstBucket, lastBucket, index + i, chunkCnt), kind := kind))
  }

  /** Gives one range its identity and compiles its condition; the others stay. */
  method InitOne(chunks: seq<Range>, i: nat, c: Range, kind: Kind, id: ChunkID)
    requires AllValid(chunks) && i < |chunks| && chunks[i] == c
    modifies c`index, c`kind, c`where, c`args
    ensures c.View() == old(c.View()).(id := id, kind := kind) && c.Compiled()
    ensures forall k :: 0 <= k < |chunks| && k != i ==> chunks[k].View() == old(chunks[k].View())
    ensures forall k :: 0 <= k < |chunks| && k != i && old(chunks[k].Compiled()) ==> chunks[k].Compiled()
  {
    c.Init(kind, id);
  }

  /** Gives the ranges of one bucket group consecutive chunk indexes and compiles their conditions. */
  method InitChunks(chunks: seq<Range>, kind: Kind, firstBucket: int, lastBucket: int, index: int, chunkCnt: int)
    requires AllValid(chunks)
    modifies chunks`index, chunks`kind, chunks`where, chunks`args
    ensures AllValid(chunks)
    ensures Views(chunks) == Numbered(old(Views(chunks)), kind, firstBucket, lastBucket, index, chunkCnt)
    ensures forall c :: c in chunks ==> c.Compiled()
  {
    ghost var was := Views(chunks);
    ghost var now := Numbered(was, kind, firstBucket, lastBucket, index, chunkCnt);
    for i := 0 to |chunks|
      invariant forall k :: i <= k < |chunks| ==> chunks[k].View() == was[k]
      invariant forall k :: 0 <= k < i ==> chunks[k].View() == now[k]
      invariant forall k :: 0 <= k < i ==> chunks[k].Compiled()
    {
      InitOne(chunks, i, chunks[i], kind, ChunkID(0, firstBucket, lastBucket, index + i, chunkCnt));
      assert chunks[i].View() == now[i];
    }
  }
}
