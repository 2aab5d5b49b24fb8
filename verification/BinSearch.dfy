/**
 * Narrowing a differing range by halves before its rows are compared (sync_diff_inspector/diff.go).
 */
module BinSearch {
  import opened Wrappers
  import opened Keys
  import opened Cover
  import opened Checksum

  /** What the search sees: the rows of both sides, with keys of one width. */
  datatype Sides = Sides(up: seq<HashedRow>, down: seq<HashedRow>, width: nat)

  predicate SidesOk(s: Sides) { KeyWidths(s.up, s.width) && KeyWidths(s.down, s.width) }

  /** The query for a middle row: its key, no row at that offset, or an error (a key with NULL cannot be read). */
  datatype Mid = Found(key: Key) | NoRow | QueryError

  type MidQuery = (Interval, int) -> Mid

  /** A key that is found belongs to some row of the range. */
  ghost predicate GoodQuery(query: MidQuery, w: nat) {
    forall iv: Interval, count: int :: Width(iv, w) && query(iv, count).Found? ==>
      |query(iv, count).key| == w && Selects(iv, AsRow(query(iv, count).key))
  }

  datatype SearchResult = Narrowed(range: Interval) | Failed | WrongCount | BothEqual

  predicate IsEqual(s: Sides, iv: Interval)
    requires SidesOk(s) && Width(iv, s.width)
  {
    Count(s.up, iv, s.width) == Count(s.down, iv, s.width) && Checksum.Xor(s.up, iv, s.width) == Checksum.Xor(s.down, iv, s.width)
  }

  function LowerHalf(iv: Interval, mid: Key): Interval { Interval(iv.lower, Some(mid)) }

  function UpperHalf(iv: Interval, mid: Key): Interval { Interval(Some(mid), iv.upper) }

  /** The search, with the upstream count of the range. */
  function Search(s: Sides, query: MidQuery, threshold: int, iv: Interval, count: nat): SearchResult
    requires SidesOk(s) && Width(iv, s.width) && GoodQuery(query, s.width)
    decreases count
  {
    if count <= threshold then Narrowed(iv)
    else match query(iv, count)
      case QueryError => Failed
      case NoRow => Narrowed(iv)
      case Found(mid) =>
        var iv1, iv2 := LowerHalf(iv, mid), UpperHalf(iv, mid);
        var isEqual1, isEqual2 := IsEqual(s, iv1), IsEqual(s, iv2);
        var count1, count2 := Count(s.up, iv1, s.width), Count(s.up, iv2, s.width);
        if count1 + count2 != count then WrongCount
        else if (!isEqual1 && !isEqual2) || count1 == 0 || count2 == 0 then Narrowed(iv)
        else if !isEqual1 then Search(s, query, threshold, iv1, count1)
        else if !isEqual2 then Search(s, query, threshold, iv2, count2)
        else BothEqual
  }

  // ---------- Two halves ----------

  /** Neither before nor after the middle: a NULL stands where the row still agrees with it. */
  predicate Undecided(row: HashedRow, mid: Key)
    requires |row.key| == |mid|
  {
    After(row.key, mid) == U
  }

  lemma {:induction false} InsideOrdered(iv: Interval, mid: Key)
    requires Width(iv, |mid|) && Selects(iv, AsRow(mid))
    ensures iv.lower.Some? ==> LexLeq(iv.lower.value, mid)
    ensures iv.upper.Some? ==> LexLeq(mid, iv.upper.value)
  {
    if iv.lower.Some? {
      AfterIsLex(mid, iv.lower.value);
      LexTotal(mid, iv.lower.value);
    }
    if iv.upper.Some? {
      AfterIsLex(mid, iv.upper.value);
    }
  }

  /** A row of the range is in exactly one half, unless it is undecided; then it is in neither. */
  lemma {:induction false} HalfOf(iv: Interval, mid: Key, row: RowKey)
    requires |row| == |mid| && Width(iv, |mid|) && Selects(iv, AsRow(mid))
    ensures Selects(LowerHalf(iv, mid), row) <==> Selects(iv, row) && After(row, mid) == F
    ensures Selects(UpperHalf(iv, mid), row) <==> Selects(iv, row) && After(row, mid) == T
  {
    InsideOrdered(iv, mid);
    if iv.lower.Some? {
      AfterMonotone(row, iv.lower.value, mid);
    }
    if iv.upper.Some? {
      AfterMonotone(row, mid, iv.upper.value);
    }
  }

  /** The rows of the range that neither half has. */
  function Lost(rows: seq<HashedRow>, iv: Interval, mid: Key): seq<HashedRow>
    requires KeyWidths(rows, |mid|) && Width(iv, |mid|)
  {
    if rows == [] then []
    else (if Selects(iv, rows[0].key) && Undecided(rows[0], mid) then [rows[0]] else []) + Lost(rows[1..], iv, mid)
  }

  /** Counts add up to the count of the range, but for the rows lost. */
  lemma {:induction false} CountHalves(rows: seq<HashedRow>, iv: Interval, mid: Key)
    requires KeyWidths(rows, |mid|) && Width(iv, |mid|) && Selects(iv, AsRow(mid))
    ensures Count(rows, LowerHalf(iv, mid), |mid|) + Count(rows, UpperHalf(iv, mid), |mid|) + |Lost(rows, iv, mid)|
            == Count(rows, iv, |mid|)
  {
    if rows != [] {
      HalfOf(iv, mid, rows[0].key);
      CountHalves(rows[1..], iv, mid);
    }
  }

  /** Checksums combine to the checksum of the range when no row is lost. */
  lemma {:induction false} XorHalves(rows: seq<HashedRow>, iv: Interval, mid: Key)
    requires KeyWidths(rows, |mid|) && Width(iv, |mid|) && Selects(iv, AsRow(mid)) && Lost(rows, iv, mid) == []
    ensures ExclusiveOr(Checksum.Xor(rows, LowerHalf(iv, mid), |mid|), Checksum.Xor(rows, UpperHalf(iv, mid), |mid|)) == Checksum.Xor(rows, iv, |mid|)
  {
    if rows != [] {
      HalfOf(iv, mid, rows[0].key);
      XorHalves(rows[1..], iv, mid);
      var low, high := Checksum.Xor(rows[1..], LowerHalf(iv, mid), |mid|), Checksum.Xor(rows[1..], UpperHalf(iv, mid), |mid|);
      XorMoves(rows[0].hash, low, high);
      XorMoves(low, rows[0].hash, high);
      XorZero(low);
      XorZero(high);
      XorZero(Checksum.Xor(rows[1..], iv, |mid|));
    }
  }

  lemma {:induction false} LostIff(rows: seq<HashedRow>, iv: Interval, mid: Key)
    requires KeyWidths(rows, |mid|) && Width(iv, |mid|)
    ensures Lost(rows, iv, mid) == [] <==> forall i :: 0 <= i < |rows| ==> !(Selects(iv, rows[i].key) && Undecided(rows[i], mid))
  {
    if rows != [] {
      LostIff(rows[1..], iv, mid);
      assert forall i :: 0 < i < |rows| ==> rows[i] == rows[1..][i - 1];
    }
  }

  /**
   * The first fatal error, on wrong counts, comes at a step exactly when some upstream row of the range has a NULL
   * where it still agrees with the middle key.
   */
  lemma {:induction false} WrongCountIff(s: Sides, iv: Interval, mid: Key, count: nat)
    requires SidesOk(s) && s.width == |mid| && Width(iv, |mid|) && Selects(iv, AsRow(mid)) && count == Count(s.up, iv, |mid|)
    ensures Count(s.up, LowerHalf(iv, mid), |mid|) + Count(s.up, UpperHalf(iv, mid), |mid|) != count <==>
            exists i :: 0 <= i < |s.up| && Selects(iv, s.up[i].key) && Undecided(s.up[i], mid)
  {
    CountHalves(s.up, iv, mid);
    LostIff(s.up, iv, mid);
  }

  /** When neither side loses a row and both halves are equal, so is the range. */
  lemma {:induction false} EqualHalves(s: Sides, iv: Interval, mid: Key)
    requires SidesOk(s) && s.width == |mid| && Width(iv, |mid|) && Selects(iv, AsRow(mid))
    requires Lost(s.up, iv, mid) == [] && Lost(s.down, iv, mid) == []
    requires IsEqual(s, LowerHalf(iv, mid)) && IsEqual(s, UpperHalf(iv, mid))
    ensures IsEqual(s, iv)
  {
    CountHalves(s.up, iv, mid);
    CountHalves(s.down, iv, mid);
    XorHalves(s.up, iv, mid);
    XorHalves(s.down, iv, mid);
  }

  // ---------- The search as a whole ----------

  /** No row of the range has a NULL in its key. */
  predicate NoNulls(rows: seq<HashedRow>, iv: Interval, w: nat)
    requires KeyWidths(rows, w) && Width(iv, w)
  {
    forall i :: 0 <= i < |rows| && Selects(iv, rows[i].key) ==> NonNull(rows[i].key)
  }

  lemma {:induction false} NothingLost(rows: seq<HashedRow>, iv: Interval, mid: Key)
    requires KeyWidths(rows, |mid|) && Width(iv, |mid|) && NoNulls(rows, iv, |mid|)
    ensures Lost(rows, iv, mid) == []
  {
    LostIff(rows, iv, mid);
    forall i | 0 <= i < |rows| && Selects(iv, rows[i].key)
      ensures !Undecided(rows[i], mid)
    {
      AfterNonNull(rows[i].key, mid);
    }
  }

  lemma {:induction false} NoNullsInHalf(rows: seq<HashedRow>, iv: Interval, mid: Key)
    requires KeyWidths(rows, |mid|) && Width(iv, |mid|) && Selects(iv, AsRow(mid)) && NoNulls(rows, iv, |mid|)
    ensures NoNulls(rows, LowerHalf(iv, mid), |mid|) && NoNulls(rows, UpperHalf(iv, mid), |mid|)
  {
    forall i | 0 <= i < |rows|
      ensures Selects(LowerHalf(iv, mid), rows[i].key) || Selects(UpperHalf(iv, mid), rows[i].key) ==> Selects(iv, rows[i].key)
    {
      HalfOf(iv, mid, rows[i].key);
    }
  }

  /** Started on a differing range with its upstream count, with no NULL in the keys: neither fatal error is reached. */
  lemma {:induction false} NeverFatal(s: Sides, query: MidQuery, threshold: int, iv: Interval)
    requires SidesOk(s) && Width(iv, s.width) && GoodQuery(query, s.width)
    requires NoNulls(s.up, iv, s.width) && NoNulls(s.down, iv, s.width) && !IsEqual(s, iv)
    ensures var r := Search(s, query, threshold, iv, Count(s.up, iv, s.width)); !r.WrongCount? && !r.BothEqual?
    decreases Count(s.up, iv, s.width)
  {
    var count := Count(s.up, iv, s.width);
    if count > threshold && query(iv, count).Found? {
      var mid := query(iv, count).key;
      var iv1, iv2 := LowerHalf(iv, mid), UpperHalf(iv, mid);
      NothingLost(s.up, iv, mid);
      NothingLost(s.down, iv, mid);
      NoNullsInHalf(s.up, iv, mid);
      NoNullsInHalf(s.down, iv, mid);
      CountHalves(s.up, iv, mid);
      var count1, count2 := Count(s.up, iv1, s.width), Count(s.up, iv2, s.width);
      if count1 != 0 && count2 != 0 {
        if !IsEqual(s, iv1) {
          NeverFatal(s, query, threshold, iv1);
        } else if !IsEqual(s, iv2) {
          NeverFatal(s, query, threshold, iv2);
        } else {
          EqualHalves(s, iv, mid);
        }
      }
    }
  }

  /** The search fails only on a middle row that cannot be read, of a range that is too large to stop at. */
  lemma {:induction false} FailedOnError(s: Sides, query: MidQuery, threshold: int, iv: Interval) returns (at: Interval)
    requires SidesOk(s) && Width(iv, s.width) && GoodQuery(query, s.width)
    requires Search(s, query, threshold, iv, Count(s.up, iv, s.width)).Failed?
    ensures Width(at, s.width) && Count(s.up, at, s.width) > threshold && query(at, Count(s.up, at, s.width)).QueryError?
    decreases Count(s.up, iv, s.width)
  {
    var count := Count(s.up, iv, s.width);
    at := iv;
    if query(iv, count).Found? {
      var mid := query(iv, count).key;
      CountHalves(s.up, iv, mid);
      at := FailedOnError(s, query, threshold, if !IsEqual(s, LowerHalf(iv, mid)) then LowerHalf(iv, mid) else UpperHalf(iv, mid));
    }
  }

  /** Every middle row there is can be read. */
  ghost predicate Readable(query: MidQuery, w: nat) {
    forall iv: Interval, count: int :: Width(iv, w) ==> !query(iv, count).QueryError?
  }

  /** Started on a differing range with its upstream count, with keys that are there and can be read: a range is returned. */
  lemma {:induction false} Returns(s: Sides, query: MidQuery, threshold: int, iv: Interval)
    requires SidesOk(s) && Width(iv, s.width) && GoodQuery(query, s.width) && Readable(query, s.width)
    requires NoNulls(s.up, iv, s.width) && NoNulls(s.down, iv, s.width) && !IsEqual(s, iv)
    ensures Search(s, query, threshold, iv, Count(s.up, iv, s.width)).Narrowed?
  {
    NeverFatal(s, query, threshold, iv);
    if Search(s, query, threshold, iv, Count(s.up, iv, s.width)).Failed? {
      var at := FailedOnError(s, query, threshold, iv);
    }
  }

  /** A range is not narrowed further: it is small, has no middle row, differs on both sides of it, or has all rows on one side. */
  predicate Final(s: Sides, query: MidQuery, threshold: int, iv: Interval)
    requires SidesOk(s) && Width(iv, s.width) && GoodQuery(query, s.width)
  {
    var count := Count(s.up, iv, s.width);
    count <= threshold
    || match query(iv, count)
       case QueryError => false
       case NoRow => true
       case Found(mid) =>
         && |Lost(s.up, iv, mid)| == 0
         && ((!IsEqual(s, LowerHalf(iv, mid)) && !IsEqual(s, UpperHalf(iv, mid)))
             || Count(s.up, LowerHalf(iv, mid), s.width) == 0 || Count(s.up, UpperHalf(iv, mid), s.width) == 0)
  }

  /** The range that is returned is such a range. */
  lemma {:induction false} ReturnsFinal(s: Sides, query: MidQuery, threshold: int, iv: Interval)
    requires SidesOk(s) && Width(iv, s.width) && GoodQuery(query, s.width)
    requires Search(s, query, threshold, iv, Count(s.up, iv, s.width)).Narrowed?
    ensures var r := Search(s, query, threshold, iv, Count(s.up, iv, s.width)).range;
            Width(r, s.width) && Final(s, query, threshold, r)
    decreases Count(s.up, iv, s.width)
  {
    var count := Count(s.up, iv, s.width);
    if count > threshold && query(iv, count).Found? {
      var mid := query(iv, count).key;
      CountHalves(s.up, iv, mid);
      if !Final(s, query, threshold, iv) {
        ReturnsFinal(s, query, threshold, if !IsEqual(s, LowerHalf(iv, mid)) then LowerHalf(iv, mid) else UpperHalf(iv, mid));
      }
    }
  }

  /** And the first such range: the search stops there, whether the sides differ there or not. */
  lemma {:induction false} FinalReturned(s: Sides, query: MidQuery, threshold: int, iv: Interval)
    requires SidesOk(s) && Width(iv, s.width) && GoodQuery(query, s.width) && Final(s, query, threshold, iv)
    ensures Search(s, query, threshold, iv, Count(s.up, iv, s.width)) == Narrowed(iv)
  {
    var count := Count(s.up, iv, s.width);
    if query(iv, count).Found? {
      CountHalves(s.up, iv, query(iv, count).key);
    }
  }

  /** A step of the search into one of the halves of a range. */
  datatype Step = Step(range: Interval, mid: Key)

  /** The steps the search takes. */
  function Steps(s: Sides, query: MidQuery, threshold: int, iv: Interval, count: nat): seq<Step>
    requires SidesOk(s) && Width(iv, s.width) && GoodQuery(query, s.width)
    decreases count
  {
    if count <= threshold || !query(iv, count).Found? then []
    else
      var mid := query(iv, count).key;
      var iv1, iv2 := LowerHalf(iv, mid), UpperHalf(iv, mid);
      var count1, count2 := Count(s.up, iv1, s.width), Count(s.up, iv2, s.width);
      if count1 + count2 != count || count1 == 0 || count2 == 0 || IsEqual(s, iv1) == IsEqual(s, iv2) then []
      else if !IsEqual(s, iv1) then [Step(iv, mid)] + Steps(s, query, threshold, iv1, count1)
      else [Step(iv, mid)] + Steps(s, query, threshold, iv2, count2)
  }

  predicate StepsFit(steps: seq<Step>, w: nat) {
    forall k :: 0 <= k < |steps| ==> Width(steps[k].range, w) && |steps[k].mid| == w
  }

  /** At some step the row is in the range, but undecided between its halves. */
  predicate Drops(steps: seq<Step>, row: RowKey)
    requires StepsFit(steps, |row|)
  {
    steps != [] && ((Selects(steps[0].range, row) && After(row, steps[0].mid) == U) || Drops(steps[1..], row))
  }

  /** The ranges have the row once if it is in the original range and was not dropped, and not at all otherwise. */
  predicate Tiles(ivs: seq<Interval>, iv: Interval, steps: seq<Step>, row: RowKey) {
    && Width(iv, |row|) && Widths(ivs, |row|) && StepsFit(steps, |row|)
    && Hits(ivs, row) == if Selects(iv, row) && !Drops(steps, row) then 1 else 0
  }

  /** A row that is dropped behind a step is in the half that the step goes into. */
  ghost predicate Inside(steps: seq<Step>, half: Interval, row: RowKey) {
    Width(half, |row|) && StepsFit(steps, |row|) && (Drops(steps, row) ==> Selects(half, row))
  }

  /** Ranges for one half, and the other half as a whole. */
  lemma {:induction false} TilesMore(ivs: seq<Interval>, iv: Interval, mid: Key, lower: bool, steps: seq<Step>, row: RowKey)
    requires |row| == |mid| && Width(iv, |mid|) && Selects(iv, AsRow(mid))
    requires Tiles(ivs, if lower then LowerHalf(iv, mid) else UpperHalf(iv, mid), steps, row)
    requires Inside(steps, if lower then LowerHalf(iv, mid) else UpperHalf(iv, mid), row)
    ensures Tiles(ivs + [if lower then UpperHalf(iv, mid) else LowerHalf(iv, mid)], iv, [Step(iv, mid)] + steps, row)
    ensures Inside([Step(iv, mid)] + steps, iv, row)
  {
    var other := if lower then UpperHalf(iv, mid) else LowerHalf(iv, mid);
    var more := [Step(iv, mid)] + steps;
    HalfOf(iv, mid, row);
    HitsAppend(ivs, [other], row);
    assert [other][1..] == [] && more[1..] == steps;
    assert Drops(more, row) <==> (Selects(iv, row) && After(row, mid) == U) || Drops(steps, row);
  }

  /** The rows that the ranges account for, and those they do not. */
  ghost predicate AccountedFor(s: Sides, ivs: seq<Interval>, iv: Interval, steps: seq<Step>) {
    && (forall row: RowKey :: |row| == s.width ==> Tiles(ivs, iv, steps, row) && Inside(steps, iv, row))
    && (forall row: RowKey :: |row| == s.width && NonNull(row) ==> !Drops(steps, row))
    && (forall i :: 0 <= i < |s.up| && |s.up[i].key| == s.width ==> !Drops(steps, s.up[i].key))
  }

  lemma {:induction false} DropsMore(iv: Interval, mid: Key, steps: seq<Step>, row: RowKey)
    requires |row| == |mid| && Width(iv, |mid|) && StepsFit(steps, |mid|)
    ensures StepsFit([Step(iv, mid)] + steps, |mid|)
    ensures Drops([Step(iv, mid)] + steps, row) <==> (Selects(iv, row) && After(row, mid) == U) || Drops(steps, row)
  {
    assert ([Step(iv, mid)] + steps)[1..] == steps;
  }

  lemma {:induction false} AccountedMore(s: Sides, ivs: seq<Interval>, iv: Interval, mid: Key, lower: bool, steps: seq<Step>)
    requires SidesOk(s) && s.width == |mid| && Width(iv, |mid|) && Selects(iv, AsRow(mid)) && Lost(s.up, iv, mid) == []
    requires AccountedFor(s, ivs, if lower then LowerHalf(iv, mid) else UpperHalf(iv, mid), steps) && StepsFit(steps, |mid|)
    ensures AccountedFor(s, ivs + [if lower then UpperHalf(iv, mid) else LowerHalf(iv, mid)], iv, [Step(iv, mid)] + steps)
  {
    var more := [Step(iv, mid)] + steps;
    forall row: RowKey | |row| == s.width
      ensures Tiles(ivs + [if lower then UpperHalf(iv, mid) else LowerHalf(iv, mid)], iv, more, row) && Inside(more, iv, row)
    {
      TilesMore(ivs, iv, mid, lower, steps, row);
    }
    forall row: RowKey | |row| == s.width && NonNull(row)
      ensures !Drops(more, row)
    {
      AfterNonNull(row, mid);
      DropsMore(iv, mid, steps, row);
    }
    LostIff(s.up, iv, mid);
    forall i | 0 <= i < |s.up|
      ensures !Drops(more, s.up[i].key)
    {
      DropsMore(iv, mid, steps, s.up[i].key);
      assert !(Selects(iv, s.up[i].key) && Undecided(s.up[i], mid));
    }
  }

  /** What the search leaves behind is equal on both sides. */
  ghost predicate AllEqual(s: Sides, ivs: seq<Interval>)
    requires SidesOk(s)
  {
    forall k :: 0 <= k < |ivs| ==> Width(ivs[k], s.width) && IsEqual(s, ivs[k])
  }

  lemma {:induction false} StepsFitAll(s: Sides, query: MidQuery, threshold: int, iv: Interval, count: nat)
    requires SidesOk(s) && Width(iv, s.width) && GoodQuery(query, s.width)
    ensures StepsFit(Steps(s, query, threshold, iv, count), s.width)
    decreases count
  {
    if count > threshold && query(iv, count).Found? {
      var mid := query(iv, count).key;
      var iv1, iv2 := LowerHalf(iv, mid), UpperHalf(iv, mid);
      var count1, count2 := Count(s.up, iv1, s.width), Count(s.up, iv2, s.width);
      if count1 + count2 == count && count1 != 0 && count2 != 0 {
        StepsFitAll(s, query, threshold, iv1, count1);
        StepsFitAll(s, query, threshold, iv2, count2);
      }
    }
  }

  /**
   * When the search returns a range, that range differs as the original one did, and what it leaves out of the original
   * range lies in ranges that are equal on both sides: together they have every row of the original range once, but for
   * the rows that were undecided at a step, which they do not have.  Those are downstream rows with NULL.
   */
  lemma {:induction false} SearchSound(s: Sides, query: MidQuery, threshold: int, iv: Interval) returns (left: seq<Interval>)
    requires SidesOk(s) && Width(iv, s.width) && GoodQuery(query, s.width) && !IsEqual(s, iv)
    requires Search(s, query, threshold, iv, Count(s.up, iv, s.width)).Narrowed?
    ensures var count := Count(s.up, iv, s.width);
            var r := Search(s, query, threshold, iv, count).range;
            && Width(r, s.width) && !IsEqual(s, r) && AllEqual(s, left)
            && AccountedFor(s, [r] + left, iv, Steps(s, query, threshold, iv, count))
    decreases Count(s.up, iv, s.width)
  {
    var count := Count(s.up, iv, s.width);
    var outcome := Search(s, query, threshold, iv, count);
    var steps := Steps(s, query, threshold, iv, count);
    left := [];
    if steps == [] {
      StaysWhole(s, iv);
    } else {
      var mid := query(iv, count).key;
      var iv1, iv2 := LowerHalf(iv, mid), UpperHalf(iv, mid);
      CountHalves(s.up, iv, mid);
      if !IsEqual(s, iv1) {
        left := SearchSound(s, query, threshold, iv1);
        left := OtherHalf(s, query, threshold, iv, mid, true, left, outcome.range);
      } else {
        left := SearchSound(s, query, threshold, iv2);
        left := OtherHalf(s, query, threshold, iv, mid, false, left, outcome.range);
      }
    }
  }

  /** The half left behind joins the ranges left behind. */
  lemma {:induction false} OtherHalf(s: Sides, query: MidQuery, threshold: int, iv: Interval, mid: Key, lower: bool, left: seq<Interval>, r: Interval)
    returns (left': seq<Interval>)
    requires SidesOk(s) && GoodQuery(query, |mid|) && s.width == |mid| && Width(iv, |mid|) && Selects(iv, AsRow(mid)) && Lost(s.up, iv, mid) == []
    requires var half, other := if lower then LowerHalf(iv, mid) else UpperHalf(iv, mid), if lower then UpperHalf(iv, mid) else LowerHalf(iv, mid);
             && AllEqual(s, left) && IsEqual(s, other)
             && AccountedFor(s, [r] + left, half, Steps(s, query, threshold, half, Count(s.up, half, |mid|)))
    ensures var half := if lower then LowerHalf(iv, mid) else UpperHalf(iv, mid);
            && AllEqual(s, left')
            && AccountedFor(s, [r] + left', iv, [Step(iv, mid)] + Steps(s, query, threshold, half, Count(s.up, half, |mid|)))
  {
    var half, other := if lower then LowerHalf(iv, mid) else UpperHalf(iv, mid), if lower then UpperHalf(iv, mid) else LowerHalf(iv, mid);
    var count := Count(s.up, half, |mid|);
    StepsFitAll(s, query, threshold, half, count);
    AccountedMore(s, [r] + left, iv, mid, lower, Steps(s, query, threshold, half, count));
    left' := left + [other];
    assert [r] + left + [other] == [r] + left';
  }

  lemma {:induction false} StaysWhole(s: Sides, iv: Interval)
    requires SidesOk(s) && Width(iv, s.width)
    ensures AccountedFor(s, [iv] + [], iv, [])
  {
    assert [iv] + [] == [iv] && [iv][1..] == [];
    forall row: RowKey | |row| == s.width
      ensures Tiles([iv] + [], iv, [], row)
    {
      assert Hits([iv], row) == (if Selects(iv, row) then 1 else 0) + Hits([], row);
    }
  }

  /** The second fatal error, on both halves of a differing range being equal, is exactly a downstream row that is undecided. */
  lemma {:induction false} BothEqualIff(s: Sides, iv: Interval, mid: Key)
    requires SidesOk(s) && s.width == |mid| && Width(iv, |mid|) && Selects(iv, AsRow(mid))
    requires Count(s.up, LowerHalf(iv, mid), |mid|) + Count(s.up, UpperHalf(iv, mid), |mid|) == Count(s.up, iv, |mid|)
    requires IsEqual(s, LowerHalf(iv, mid)) && IsEqual(s, UpperHalf(iv, mid))
    ensures !IsEqual(s, iv) <==> exists i :: 0 <= i < |s.down| && Selects(iv, s.down[i].key) && Undecided(s.down[i], mid)
  {
    CountHalves(s.up, iv, mid);
    CountHalves(s.down, iv, mid);
    LostIff(s.down, iv, mid);
    if Lost(s.down, iv, mid) == [] {
      EqualHalves(s, iv, mid);
    }
  }

  /** And one such row is enough: upstream has two rows, downstream the same two and a third with NULL. */
  lemma {:induction false} BothEqualHappens()
    ensures var v1, v2 := Value("1", 1.0), Value("2", 2.0);
            var rows := [HashedRow([Some(v1)], {}), HashedRow([Some(v2)], {})];
            var s := Sides(rows, rows + [HashedRow([None], {})], 1);
            var query: MidQuery := (iv, count) => if Width(iv, 1) && Selects(iv, AsRow([v1])) then Found([v1]) else NoRow;
            && SidesOk(s) && GoodQuery(query, 1) && !IsEqual(s, Interval(None, None))
            && Search(s, query, 1, Interval(None, None), Count(s.up, Interval(None, None), 1)) == BothEqual
  {
    var v1, v2 := Value("1", 1.0), Value("2", 2.0);
    var a, b, c := HashedRow([Some(v1)], {}), HashedRow([Some(v2)], {}), HashedRow([None], {});
    var whole, mid := Interval(None, None), [v1];
    var low, high := LowerHalf(whole, mid), UpperHalf(whole, mid);
    ThreeRows(a, b, c, whole);
    ThreeRows(a, b, c, low);
    ThreeRows(a, b, c, high);
    assert AsRow(mid) == [Some(v1)];
    assert [Some(v1)][1..] == [] && [v1][1..] == [];
    assert After([Some(v1)], mid) == F && After([Some(v2)], mid) == T && After([None], mid) == U;
  }

  lemma {:induction false} ThreeRows(a: HashedRow, b: HashedRow, c: HashedRow, iv: Interval)
    requires |a.key| == |b.key| == |c.key| == 1 && Width(iv, 1)
    ensures var up, down := [a, b], [a, b] + [c];
            var n := (if Selects(iv, a.key) then 1 else 0) + (if Selects(iv, b.key) then 1 else 0);
            && Count(up, iv, 1) == n && Count(down, iv, 1) == n + (if Selects(iv, c.key) then 1 else 0)
    ensures a.hash == b.hash == c.hash == {} ==> Checksum.Xor([a, b], iv, 1) == {} && Checksum.Xor([a, b] + [c], iv, 1) == {}
  {
    assert [a, b] + [c] == [a] + ([b] + ([c] + [])) && [a, b] == [a] + ([b] + []);
    FirstRow(c, [], iv);
    FirstRow(b, [c] + [], iv);
    FirstRow(a, [b] + ([c] + []), iv);
    FirstRow(b, [], iv);
    FirstRow(a, [b] + [], iv);
  }

  lemma {:induction false} FirstRow(r: HashedRow, rest: seq<HashedRow>, iv: Interval)
    requires |r.key| == 1 && KeyWidths(rest, 1) && Width(iv, 1)
    ensures Count([r] + rest, iv, 1) == (if Selects(iv, r.key) then 1 else 0) + Count(rest, iv, 1)
    ensures r.hash == {} ==> Checksum.Xor([r] + rest, iv, 1) == Checksum.Xor(rest, iv, 1)
  {
    assert ([r] + rest)[1..] == rest;
    XorZero(Checksum.Xor(rest, iv, 1));
  }
}
