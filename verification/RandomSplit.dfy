/**
 * Splitting a range at sampled rows (sync_diff_inspector/splitter/random.go).  The sample is any list of keys in the
 * range that is sorted, with duplicates and with fewer keys than were asked for; the pieces are range objects, and their
 * intervals are the cuts of the range's interval at the sample.
 */
module RandomSplit {
  import opened Wrappers
  import opened Keys
  import opened Cover
  import opened Chunks
  import opened Ranges

  /**
   * What the sampling query returns for a range: at most `num` keys of rows in the range, in order,
   * rows with NULL left out; the same key may come twice.
   */
  predicate IsSample(parent: Interval, num: int, sample: seq<Key>, width: nat)
    requires Width(parent, width)
  {
    && |sample| <= (if num > 0 then num else 0)
    && (forall i :: 0 <= i < |sample| ==> |sample[i]| == width && Selects(parent, AsRow(sample[i])))
    && (forall i :: 0 <= i < |sample| - 1 ==> LexLeq(sample[i], sample[i + 1]))
  }

  predicate SampleWidths(sample: seq<Key>, width: nat) {
    forall i :: 0 <= i < |sample| ==> |sample[i]| == width
  }

  /** The bounds of the `i`-th piece. */
  function Piece(bounds: seq<Bound>, columns: seq<string>, sample: seq<Key>, i: nat): seq<Bound>
    requires i <= |sample| && SampleWidths(sample, |columns|)
  {
    var n := |columns|;
    if sample == [] then bounds
    else if i == 0 then UpdatedAll(bounds, columns, Blank(n), sample[0], false, true, n)
    else if i == |sample| then UpdatedAll(bounds, columns, sample[i - 1], Blank(n), true, false, n)
    else UpdatedAll(bounds, columns, sample[i - 1], sample[i], true, true, n)
  }

  /** The pieces of a range; with no more than one chunk wanted, the range itself. */
  function Pieces(parent: Chunk, count: int, columns: seq<string>, sample: seq<Key>): seq<Chunk>
    requires SampleWidths(sample, |columns|)
  {
    if count <= 1 then [parent]
    else seq(|sample| + 1, i requires 0 <= i < |sample| + 1 =>
           Chunk(ChunkID(0, 0, 0, 0, 0), Others, Piece(parent.bounds, columns, sample, i), false, false))
  }

  /** Splits a range at the sampled keys. */
  method SplitRangeByRandom(parent: Range, count: int, columns: seq<string>, sample: seq<Key>) returns (chunks: seq<Range>)
    requires parent.Valid() && SampleWidths(sample, |columns|)
    ensures AllValid(chunks)
    ensures count <= 1 ==> chunks == [parent]
    ensures count > 1 ==> forall c :: c in chunks ==> fresh(c)
    ensures |chunks| == if count <= 1 then 1 else |sample| + 1
    ensures forall i :: 0 <= i < |chunks| ==>
      chunks[i].bounds == Pieces(parent.View(), count, columns, sample)[i].bounds
      && (count > 1 ==> !chunks[i].isFirst && !chunks[i].isLast)
  {
    if count <= 1 {
      return [parent];
    }
    chunks := SplitPieces(parent, columns, sample);
  }

  /** One piece before the first sampled key, one behind each. */
  method SplitPieces(parent: Range, columns: seq<string>, sample: seq<Key>) returns (chunks: seq<Range>)
    requires parent.Valid() && SampleWidths(sample, |columns|)
    ensures AllValid(chunks) && |chunks| == |sample| + 1
    ensures forall c :: c in chunks ==> fresh(c)
    ensures forall k :: 0 <= k < |chunks| ==>
              chunks[k].bounds == Piece(parent.bounds, columns, sample, k) && !chunks[k].isFirst && !chunks[k].isLast
  {
    chunks := [];
    for i := 0 to |sample| + 1
      invariant |chunks| == i && AllValid(chunks)
      invariant forall c :: c in chunks ==> fresh(c)
      invariant forall k :: 0 <= k < i ==>
                  chunks[k].bounds == Piece(parent.bounds, columns, sample, k) && !chunks[k].isFirst && !chunks[k].isLast
    {
      var newChunk := SplitPiece(parent, columns, sample, i);
      chunks := chunks + [newChunk];
    }
  }

  lemma {:induction false} PieceUpdated(bounds: seq<Bound>, columns: seq<string>, sample: seq<Key>, i: nat, lower: Key, upper: Key)
    requires SampleWidths(sample, |columns|) && i <= |sample| && sample != []
    requires lower == (if i > 0 then sample[i - 1] else []) && upper == (if i < |sample| then sample[i] else [])
    ensures i > 0 ==> |lower| == |columns|
    ensures i < |sample| ==> |upper| == |columns|
    ensures Piece(bounds, columns, sample, i) ==
            UpdatedAll(bounds, columns, Padded(lower, i > 0, |columns|), Padded(upper, i < |sample|, |columns|), i > 0, i < |sample|, |columns|)
  {
  }

  /** A copy of the range with its columns narrowed to the `i`-th piece, one column at a time. */
  method SplitPiece(parent: Range, columns: seq<string>, sample: seq<Key>, i: nat) returns (newChunk: Range)
    requires parent.Valid() && SampleWidths(sample, |columns|) && i <= |sample|
    ensures fresh(newChunk) && newChunk.Valid() && !newChunk.isFirst && !newChunk.isLast
    ensures newChunk.bounds == Piece(parent.bounds, columns, sample, i)
  {
    newChunk := parent.Copy();
    if |sample| == 0 {
      return;
    }
    var lower := if i > 0 then sample[i - 1] else [];
    var upper := if i < |sample| then sample[i] else [];
    PieceUpdated(newChunk.bounds, columns, sample, i, lower, upper);
    newChunk.UpdateColumns(columns, lower, upper, i > 0, i < |sample|);
  }

  // ---------- What the pieces cover ----------

  /** Between two neighbouring samples, or out to the parent's own end. */
  function CutSpan(span: Interval, sample: seq<Key>, i: nat): Interval
    requires i <= |sample|
  {
    Interval(if i == 0 then span.lower else Some(sample[i - 1]),
             if i == |sample| then span.upper else Some(sample[i]))
  }

  /** An interval cut at the sampled keys, when more than one chunk is wanted. */
  function Cut(span: Interval, count: int, sample: seq<Key>): seq<Interval> {
    if count <= 1 then [span]
    else seq(|sample| + 1, i requires 0 <= i < |sample| + 1 => CutSpan(span, sample, i))
  }

  /** The pieces of a range are the cuts of its interval. */
  lemma {:induction false} PieceInterval(bounds: seq<Bound>, columns: seq<string>, sample: seq<Key>, i: nat)
    requires i <= |sample| && SampleWidths(sample, |columns|)
    requires columns != [] && Distinct(columns) && Over(bounds, columns) && Uniform(bounds)
    ensures Uniform(Piece(bounds, columns, sample, i)) && Over(Piece(bounds, columns, sample, i), columns)
    ensures IntervalOf(Piece(bounds, columns, sample, i)) == CutSpan(IntervalOf(bounds), sample, i)
  {
    var n := |columns|;
    if sample != [] {
      if i == 0 {
        UpdatedAllInterval(bounds, columns, Blank(n), sample[0], false, true);
      } else if i == |sample| {
        UpdatedAllInterval(bounds, columns, sample[i - 1], Blank(n), true, false);
      } else {
        UpdatedAllInterval(bounds, columns, sample[i - 1], sample[i], true, true);
      }
    }
  }

  /**
   * The cuts of an interval follow each other from its lower end to its upper end, never more than were
   * asked for, and none turns back unless the interval itself does.  When several are asked for, every sampled key ends one.
   */
  lemma {:induction false} CutsChain(span: Interval, count: int, sample: seq<Key>, w: nat)
    requires Width(span, w) && IsSample(span, count - 1, sample, w)
    ensures var ivs := Cut(span, count, sample);
            && 1 <= |ivs| <= (if count > 1 then count else 1)
            && Widths(ivs, w) && Chain(ivs) && Outer(ivs) == span
            && (Ordered(span) ==> AllOrdered(ivs))
            && (count > 1 ==> |ivs| == |sample| + 1 && forall i :: 0 <= i < |sample| ==> ivs[i].upper == Some(sample[i]))
  {
    var ivs := Cut(span, count, sample);
    if count > 1 && Ordered(span) {
      forall i | 0 <= i < |ivs|
        ensures Ordered(ivs[i])
      {
        CutOrdered(span, count, sample, w, i);
      }
    }
  }

  lemma {:induction false} CutOrdered(span: Interval, count: int, sample: seq<Key>, w: nat, i: nat)
    requires Width(span, w) && IsSample(span, count - 1, sample, w) && i <= |sample| && Ordered(span)
    ensures Ordered(CutSpan(span, sample, i))
  {
    if i < |sample| && i == 0 && span.lower.Some? {
      AfterIsLex(sample[0], span.lower.value);
      LexTotal(sample[0], span.lower.value);
    }
    if i == |sample| && i > 0 && span.upper.Some? {
      AfterIsLex(sample[i - 1], span.upper.value);
    }
  }

  /**
   * A row is in one cut if it is in the interval, and in none otherwise.  The exception is a row with a NULL
   * whose columns before that NULL agree with a sampled key: it is in the interval but in no cut.
   */
  lemma {:induction false} CutsPartition(span: Interval, count: int, sample: seq<Key>, row: RowKey)
    requires Width(span, |row|) && IsSample(span, count - 1, sample, |row|) && Ordered(span)
    ensures var ivs := Cut(span, count, sample);
            Widths(ivs, |row|) &&
            Hits(ivs, row) ==
              if Selects(span, row) && (count <= 1 || forall i :: 0 <= i < |sample| ==> After(row, sample[i]) != U)
              then 1 else 0
  {
    CutsChain(span, count, sample, |row|);
    var ivs := Cut(span, count, sample);
    ChainSelects(ivs, row);
    if count > 1 {
      assert Decided(ivs, row) <==> forall i :: 0 <= i < |sample| ==> After(row, sample[i]) != U by {
        if Decided(ivs, row) {
          forall i | 0 <= i < |sample|
            ensures After(row, sample[i]) != U
          {
            assert Beyond(ivs[i].upper, row) != U;
          }
        }
      }
    }
  }
}
