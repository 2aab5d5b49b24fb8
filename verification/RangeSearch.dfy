/**
 * The binary search as it works on range objects: copied, and each copy narrowed column by column
 * (sync_diff_inspector/diff.go, sync_diff_inspector/splitter/splitter.go).
 */
module RangeSearch {
  import opened Keys
  import opened Cover
  import opened Chunks
  import opened Ranges
  import opened Iterators
  import opened BinSearch
  import Checksum

  /** Two copies of a range, one up to the middle key and one behind it. */
  method Halve(tableRange: Range, columns: seq<string>, midValues: Key) returns (tableRange1: Range, tableRange2: Range)
    requires tableRange.Valid() && Indexed(columns) && Fits(tableRange.bounds, columns) && |midValues| == |columns|
    ensures fresh(tableRange1) && tableRange1.Valid() && Fits(tableRange1.bounds, columns)
    ensures fresh(tableRange2) && tableRange2.Valid() && Fits(tableRange2.bounds, columns)
    ensures IntervalOf(tableRange1.bounds) == LowerHalf(IntervalOf(tableRange.bounds), midValues)
    ensures IntervalOf(tableRange2.bounds) == UpperHalf(IntervalOf(tableRange.bounds), midValues)
  {
    tableRange1 := tableRange.Copy();
    tableRange2 := tableRange.Copy();
    ghost var bounds, n := tableRange.bounds, |columns|;
    UpdatedAllInterval(bounds, columns, Padded([], false, n), Padded(midValues, true, n), false, true);
    tableRange1.UpdateColumns(columns, [], midValues, false, true);
    UpdatedAllInterval(bounds, columns, Padded(midValues, true, n), Padded([], false, n), true, false);
    tableRange2.UpdateColumns(columns, midValues, [], true, false);
  }

  /** The search over range objects returns an object for the range the specification gives. */
  method BinSearchRange(s: Sides, query: MidQuery, threshold: int, columns: seq<string>, tableRange: Range, count: nat)
    returns (outcome: SearchResult, range: Range)
    requires SidesOk(s) && s.width == |columns| && GoodQuery(query, s.width) && Indexed(columns)
    requires tableRange.Valid() && Fits(tableRange.bounds, columns)
    ensures Width(IntervalOf(tableRange.bounds), s.width)
    ensures outcome == Search(s, query, threshold, IntervalOf(tableRange.bounds), count)
    ensures outcome.Narrowed? ==> range.Valid() && Fits(range.bounds, columns) && IntervalOf(range.bounds) == outcome.range
    decreases count
  {
    FitsWidth(tableRange.bounds, columns);
    ghost var iv := IntervalOf(tableRange.bounds);
    range := tableRange;
    if count <= threshold {
      return Narrowed(IntervalOf(tableRange.bounds)), range;
    }
    var mid := query(IntervalOf(tableRange.bounds), count);
    if mid.QueryError? {
      return Failed, range;
    }
    if mid.NoRow? {
      return Narrowed(IntervalOf(tableRange.bounds)), range;
    }
    var tableRange1, tableRange2 := Halve(tableRange, columns, mid.key);
    FitsWidth(tableRange1.bounds, columns);
    FitsWidth(tableRange2.bounds, columns);
    var iv1, iv2 := IntervalOf(tableRange1.bounds), IntervalOf(tableRange2.bounds);
    var isEqual1, count1 := IsEqual(s, iv1), Checksum.Count(s.up, iv1, s.width);
    var isEqual2, count2 := IsEqual(s, iv2), Checksum.Count(s.up, iv2, s.width);
    if count1 + count2 != count {
      return WrongCount, range;
    }
    if (!isEqual1 && !isEqual2) || count1 == 0 || count2 == 0 {
      return Narrowed(IntervalOf(tableRange.bounds)), range;
    } else if !isEqual1 {
      outcome, range := BinSearchRange(s, query, threshold, columns, tableRange1, count1);
    } else if !isEqual2 {
      outcome, range := BinSearchRange(s, query, threshold, columns, tableRange2, count2);
    } else {
      return BothEqual, range;
    }
  }
}
