/**
 * The producers over range objects: the bucket iterator (sync_diff_inspector/splitter/bucket.go) and the random iterator
 * (sync_diff_inspector/splitter/random.go), each tied to its chunk sequence in module Producers.
 */
module Iterators {
  import opened Wrappers
  import opened Keys
  import opened Cover
  import opened Chunks
  import opened Ranges
  import opened RandomSplit
  import opened Nodes
  import opened Producers

  /** Bounds on all of these columns or on none. */
  predicate Fits(bounds: seq<Bound>, columns: seq<string>) {
    Uniform(bounds) && Over(bounds, columns)
  }

  predicate Indexed(columns: seq<string>) {
    columns != [] && Distinct(columns)
  }

  lemma {:induction false} FitsWidth(bounds: seq<Bound>, columns: seq<string>)
    requires Fits(bounds, columns)
    ensures Width(IntervalOf(bounds), |columns|)
  {
    if bounds != [] {
      assert |bounds| == |Columns(bounds)|;
    }
  }

  function NodesOf(chunks: seq<Chunk>): seq<Node> {
    seq(|chunks|, i requires 0 <= i < |chunks| => NodeOf(chunks[i]))
  }

  predicate AllFit(chunks: seq<Chunk>, columns: seq<string>) {
    forall c :: c in chunks ==> Fits(c.bounds, columns)
  }

  /** An empty list of values stands for a missing end. */
  function End(values: Key): Option<Key> {
    if values == [] then None else Some(values)
  }

  predicate IsEnd(values: Key, columns: seq<string>) {
    values == [] || |values| == |columns|
  }

  /** A new range between two rows of values; an empty row leaves that side open. */
  method NewRangeBetween(columns: seq<string>, lowerValues: Key, upperValues: Key) returns (r: Range)
    requires Indexed(columns) && IsEnd(lowerValues, columns) && IsEnd(upperValues, columns)
    ensures fresh(r) && r.Valid() && !r.isFirst && !r.isLast
    ensures Fits(r.bounds, columns) && IntervalOf(r.bounds) == Interval(End(lowerValues), End(upperValues))
  {
    r := new Range();
    if lowerValues == [] && upperValues == [] {
      return;
    }
    ghost var n := |columns|;
    var hasLower, hasUpper := |lowerValues| > 0, |upperValues| > 0;
    r.UpdateColumns(columns, lowerValues, upperValues, hasLower, hasUpper);
    UpdatedAllInterval([], columns, Padded(lowerValues, hasLower, n), Padded(upperValues, hasUpper, n), hasLower, hasUpper);
  }

  /** The range left over in a saved chunk's bucket group: from the chunk's upper values to the bucket's. */
  method NewLeftOver(columns: seq<string>, nextUpperValues: Key, saved: seq<Bound>) returns (r: Range)
    requires Indexed(columns) && |nextUpperValues| == |columns|
    requires Uniform(saved) && Columns(saved) == columns && IntervalOf(saved).upper.Some?
    ensures fresh(r) && r.Valid() && !r.isFirst && !r.isLast
    ensures Fits(r.bounds, columns) && IntervalOf(r.bounds) == Interval(IntervalOf(saved).upper, Some(nextUpperValues))
  {
    r := NewRangeBetween(columns, [], nextUpperValues);
    assert |saved| == |Columns(saved)|;
    UpdatedAllInterval(r.bounds, columns, Uppers(saved), Blank(|saved|), true, false);
    r.UpdateLowers(saved);
  }

  lemma {:induction false} NodesAppend(a: seq<Chunk>, b: seq<Chunk>)
    ensures NodesOf(a + b) == NodesOf(a) + NodesOf(b)
  {
  }

  /** What the consumers of a list of ranges see. */
  method Snapshot(chunks: seq<Range>) returns (sent: seq<Chunk>)
    ensures sent == Views(chunks)
  {
    sent := [];
    for i := 0 to |chunks|
      invariant |sent| == i
      invariant forall k :: 0 <= k < i ==> sent[k] == chunks[k].View()
    {
      sent := sent + [chunks[i].View()];
    }
  }

  /** Splits one group's range at sampled rows and numbers the pieces: what is sent for the group. */
  method SplitChunkForBucket(chunkRange: Range, columns: seq<string>, kind: Kind, slot: Slot, splitChunkCnt: int, rand: Sampler)
    returns (sent: seq<Chunk>)
    requires chunkRange.Valid() && !chunkRange.isFirst && !chunkRange.isLast
    requires Indexed(columns) && Fits(chunkRange.bounds, columns) && GoodSampler(rand, |columns|)
    modifies chunkRange
    ensures NodesOf(sent) == Group(IntervalOf(old(chunkRange.bounds)), slot, splitChunkCnt, rand)
    ensures AllFit(sent, columns)
  {
    FitsWidth(chunkRange.bounds, columns);
    ghost var bounds := chunkRange.bounds;
    var sample := rand(IntervalOf(chunkRange.bounds), splitChunkCnt - 1);
    var chunks := SplitRangeByRandom(chunkRange, splitChunkCnt, columns, sample);
    ghost var pieces := Views(chunks);
    assert forall i :: 0 <= i < |chunks| ==> chunks[i] == chunkRange || fresh(chunks[i]) by {
      assert forall i :: 0 <= i < |chunks| ==> chunks[i] in chunks;
    }
    InitChunks(chunks, kind, slot.left, slot.right, slot.index, slot.count);
    sent := Snapshot(chunks);
    GroupSent(bounds, columns, sample, splitChunkCnt, pieces, kind, slot);
  }

  /** The numbered pieces are the group. */
  lemma {:induction false} GroupSent(bounds: seq<Bound>, columns: seq<string>, sample: seq<Key>, count: int, pieces: seq<Chunk>, kind: Kind, slot: Slot)
    requires Indexed(columns) && Fits(bounds, columns) && SampleWidths(sample, |columns|)
    requires |pieces| == if count <= 1 then 1 else |sample| + 1
    requires forall i :: 0 <= i < |pieces| ==>
      && pieces[i].bounds == (if count <= 1 then bounds else Piece(bounds, columns, sample, i))
      && !pieces[i].isFirst && !pieces[i].isLast
    ensures var sent := Numbered(pieces, kind, slot.left, slot.right, slot.index, slot.count);
            NodesOf(sent) == Number(Cut(IntervalOf(bounds), count, sample), slot) && AllFit(sent, columns)
  {
    PiecesAreCuts(bounds, columns, sample, count, pieces);
  }

  /** Piece by piece, the split of the bounds is the cut of their interval. */
  lemma {:induction false} PiecesAreCuts(bounds: seq<Bound>, columns: seq<string>, sample: seq<Key>, count: int, pieces: seq<Chunk>)
    requires Indexed(columns) && Fits(bounds, columns) && SampleWidths(sample, |columns|)
    requires |pieces| == if count <= 1 then 1 else |sample| + 1
    requires forall i :: 0 <= i < |pieces| ==>
      pieces[i].bounds == (if count <= 1 then bounds else Piece(bounds, columns, sample, i))
    ensures |Cut(IntervalOf(bounds), count, sample)| == |pieces|
    ensures forall i :: 0 <= i < |pieces| ==>
      Fits(pieces[i].bounds, columns) && IntervalOf(pieces[i].bounds) == Cut(IntervalOf(bounds), count, sample)[i]
  {
    forall i | 0 <= i < |pieces|
      ensures Fits(pieces[i].bounds, columns) && IntervalOf(pieces[i].bounds) == Cut(IntervalOf(bounds), count, sample)[i]
    {
      if count > 1 {
        PieceInterval(bounds, columns, sample, i);
      }
    }
  }

  // ---------- The bucket iterator ----------

  /** What the iterator is expected to send: from scratch, or from a saved chunk. */
  ghost function Expected(st: Stats, rand: Sampler, start: Option<Chunk>): Run
    requires st.chunkSize > 0 && (start.Some? ==> LastOfTable(NodeOf(start.value)) || start.value.id.right >= 0)
  {
    match start
    case None => FromBuckets(st, rand, 0, 0, 0, None)
    case Some(c) => ResumeBuckets(st, rand, NodeOf(c))
  }

  /** A saved chunk carries bounds on the index columns; only a last chunk may have none. */
  predicate StartFits(start: Option<Chunk>, columns: seq<string>) {
    start.Some? ==> Fits(start.value.bounds, columns) && start.value.id.right >= 0
  }

  /** One group of chunks between two rows of bucket values. */
  method ProduceGroup(columns: seq<string>, lowerValues: Key, upperValues: Key, slot: Slot, chunkCnt: int, rand: Sampler)
    returns (group: seq<Chunk>)
    requires Indexed(columns) && GoodSampler(rand, |columns|) && IsEnd(lowerValues, columns) && IsEnd(upperValues, columns)
    ensures NodesOf(group) == Group(Interval(End(lowerValues), End(upperValues)), slot, chunkCnt, rand)
    ensures AllFit(group, columns)
  {
    var chunkRange := NewRangeBetween(columns, lowerValues, upperValues);
    group := SplitChunkForBucket(chunkRange, columns, Bucket, slot, chunkCnt, rand);
  }

  /** The chunks left over in a saved chunk's group. */
  method ProduceLeftOver(st: Stats, columns: seq<string>, nextUpperValues: Key, c: Chunk, rand: Sampler) returns (group: seq<Chunk>)
    requires Indexed(columns) && GoodSampler(rand, |columns|) && |nextUpperValues| == |columns|
    requires Fits(c.bounds, columns) && IntervalOf(c.bounds).upper.Some?
    requires 0 <= c.id.right < |st.buckets| && st.buckets[c.id.right].upper == Some(nextUpperValues)
    ensures NodesOf(group) == LeftGroup(st, rand, NodeOf(c))
    ensures AllFit(group, columns)
  {
    var leftCnt := c.id.count - c.id.index - 1;
    if leftCnt <= 0 {
      return [];
    }
    group := SplitLeftOver(columns, nextUpperValues, c, leftCnt, rand);
    ghost var span := Interval(IntervalOf(c.bounds).upper, Some(nextUpperValues));
    LeftGroupOf(st, rand, c, span, Slot(c.id.left, c.id.right, c.id.index + 1, c.id.count), leftCnt, NodesOf(group));
  }

  lemma {:induction false} LeftGroupOf(st: Stats, rand: Sampler, c: Chunk, span: Interval, slot: Slot, leftCnt: int, g: seq<Node>)
    requires 0 <= c.id.right < |st.buckets| && leftCnt == c.id.count - c.id.index - 1 && leftCnt > 0
    requires span == Interval(IntervalOf(c.bounds).upper, st.buckets[c.id.right].upper)
    requires slot == Slot(c.id.left, c.id.right, c.id.index + 1, c.id.count) && g == Group(span, slot, leftCnt, rand)
    ensures g == LeftGroup(st, rand, NodeOf(c))
  {
  }

  method SplitLeftOver(columns: seq<string>, nextUpperValues: Key, c: Chunk, leftCnt: int, rand: Sampler) returns (group: seq<Chunk>)
    requires Indexed(columns) && GoodSampler(rand, |columns|) && |nextUpperValues| == |columns|
    requires Fits(c.bounds, columns) && IntervalOf(c.bounds).upper.Some?
    ensures NodesOf(group) == Group(Interval(IntervalOf(c.bounds).upper, Some(nextUpperValues)),
                                    Slot(c.id.left, c.id.right, c.id.index + 1, c.id.count), leftCnt, rand)
    ensures AllFit(group, columns)
  {
    var chunkRange := NewLeftOver(columns, nextUpperValues, c.bounds);
    group := SplitChunkForBucket(chunkRange, columns, Bucket, Slot(c.id.left, c.id.right, c.id.index + 1, c.id.count), leftCnt, rand);
  }

  /** What was left over of the group, and then the buckets behind it, are what a resumed run sends. */
  lemma {:induction false} AfterSent(st: Stats, rand: Sampler, c: Chunk, left: seq<Chunk>, rest: seq<Chunk>, failed: bool)
    requires st.chunkSize > 0 && !LastOfTable(NodeOf(c)) && 0 <= c.id.right < |st.buckets| && st.buckets[c.id.right].upper.Some?
    requires NodesOf(left) == LeftGroup(st, rand, NodeOf(c))
    requires var b := st.buckets[c.id.right]; Run(NodesOf(rest), failed) == FromBuckets(st, rand, c.id.right + 1, c.id.right + 1, b.count, b.upper)
    ensures Run(NodesOf(left + rest), failed) == ResumeBuckets(st, rand, NodeOf(c))
  {
    ResumeBucketsIs(st, rand, NodeOf(c));
    NodesAppend(left, rest);
  }

  /** The bucket iterator's producing goroutine. */
  method ProduceChunks(buckets: seq<BucketInfo>, columns: seq<string>, chunkSize: int, rand: Sampler, start: Option<Chunk>)
    returns (sent: seq<Chunk>, failed: bool)
    requires Indexed(columns) && Setting(Stats(buckets, |columns|, chunkSize), rand) && StartFits(start, columns)
    ensures Run(NodesOf(sent), failed) == Expected(Stats(buckets, |columns|, chunkSize), rand, start)
    ensures AllFit(sent, columns)
  {
    if start.None? {
      sent, failed := ProduceFrom(buckets, columns, chunkSize, rand, 0, 0, []);
    } else {
      sent, failed := ProduceAfter(buckets, columns, chunkSize, rand, start.value);
    }
  }

  /** From a saved chunk on: the rest of its group first, then the buckets behind it. */
  method ProduceAfter(buckets: seq<BucketInfo>, columns: seq<string>, chunkSize: int, rand: Sampler, c: Chunk)
    returns (sent: seq<Chunk>, failed: bool)
    requires Indexed(columns) && Setting(Stats(buckets, |columns|, chunkSize), rand) && StartFits(Some(c), columns)
    ensures Run(NodesOf(sent), failed) == Expected(Stats(buckets, |columns|, chunkSize), rand, Some(c))
    ensures AllFit(sent, columns)
  {
    ghost var st := Stats(buckets, |columns|, chunkSize);
    EndsAgree(c);
    if c.isLast || NoUpper(c.bounds) {
      return [], false;
    }
    if c.id.right >= |buckets| || buckets[c.id.right].upper.None? {
      ResumeBucketsIs(st, rand, NodeOf(c));
      return [], true;
    }
    var nextUpperValues := buckets[c.id.right].upper.value;
    EndOf(nextUpperValues, columns);
    var left := ProduceLeftOver(Stats(buckets, |columns|, chunkSize), columns, nextUpperValues, c, rand);
    var rest;
    rest, failed := ProduceFrom(buckets, columns, chunkSize, rand, c.id.right + 1, buckets[c.id.right].count, nextUpperValues);
    AfterSent(st, rand, c, left, rest, failed);
    sent := left + rest;
  }

  lemma {:induction false} EndOf(values: Key, columns: seq<string>)
    requires |values| == |columns| && columns != []
    ensures IsEnd(values, columns) && End(values) == Some(values)
  {
  }

  lemma {:induction false} ResumeBucketsIs(st: Stats, rand: Sampler, saved: Node)
    requires st.chunkSize > 0 && !LastOfTable(saved) && saved.id.right >= 0
    ensures var right, run := saved.id.right, ResumeBuckets(st, rand, saved);
            if right >= |st.buckets| || st.buckets[right].upper.None? then run == Run([], true)
            else run == Prefixed(LeftGroup(st, rand, saved), FromBuckets(st, rand, right + 1, right + 1, st.buckets[right].count, st.buckets[right].upper))
  {
  }

  function NoUpper(bounds: seq<Bound>): (r: bool)
    ensures r <==> forall i :: 0 <= i < |bounds| ==> !bounds[i].hasUpper
  {
    bounds == [] || (!bounds[0].hasUpper && NoUpper(bounds[1..]))
  }

  /** One step of the reference: a small bucket is passed over, a large one gives a group. */
  lemma {:induction false} FromBucketsStep(st: Stats, rand: Sampler, i: nat, first: int, latest: int, lower: Option<Key>, run: Run)
    requires st.chunkSize > 0 && i < |st.buckets| && run == FromBuckets(st, rand, i, first, latest, lower)
    ensures var b := st.buckets[i];
            && (b.count - latest < st.chunkSize ==> run == FromBuckets(st, rand, i + 1, first, latest, lower))
            && (b.count - latest >= st.chunkSize && b.upper.None? ==> run == Run([], true))
            && (b.count - latest >= st.chunkSize && b.upper.Some? ==>
                  var chunkCnt := ChunkCnt(b.count - latest, st.chunkSize, i == first);
                  run == Prefixed(Group(Interval(lower, b.upper), Slot(first, i, 0, chunkCnt), chunkCnt, rand),
                                  FromBuckets(st, rand, i + 1, i + 1, b.count, b.upper)))
  {
  }

  /** The chunks for a bucket that is large enough, or for several small ones; only a single bucket is split. */
  method ProduceBucket(columns: seq<string>, lowerValues: Key, upperValues: Key, first: int, i: int, count: int, chunkSize: int, rand: Sampler)
    returns (group: seq<Chunk>)
    requires Indexed(columns) && GoodSampler(rand, |columns|) && IsEnd(lowerValues, columns) && |upperValues| == |columns| && chunkSize > 0
    ensures var chunkCnt := ChunkCnt(count, chunkSize, i == first);
            NodesOf(group) == Group(Interval(End(lowerValues), Some(upperValues)), Slot(first, i, 0, chunkCnt), chunkCnt, rand)
    ensures AllFit(group, columns)
  {
    var halfChunkSize := chunkSize / 2;
    var chunkCnt := 1;
    if i == first {
      chunkCnt := (count + halfChunkSize) / chunkSize;
    }
    EndOf(upperValues, columns);
    group := ProduceGroup(columns, lowerValues, upperValues, Slot(first, i, 0, chunkCnt), chunkCnt, rand);
  }

  /** A group sent for a large bucket. */
  lemma {:induction false} BucketSent(st: Stats, rand: Sampler, i: nat, first: int, latest: int, lower: Option<Key>,
                                      sent: seq<Chunk>, group: seq<Chunk>, goal: Run)
    requires st.chunkSize > 0 && i < |st.buckets| && st.buckets[i].count - latest >= st.chunkSize && st.buckets[i].upper.Some?
    requires var chunkCnt := ChunkCnt(st.buckets[i].count - latest, st.chunkSize, i == first);
             NodesOf(group) == Group(Interval(lower, st.buckets[i].upper), Slot(first, i, 0, chunkCnt), chunkCnt, rand)
    requires goal == Prefixed(NodesOf(sent), FromBuckets(st, rand, i, first, latest, lower))
    ensures goal == Prefixed(NodesOf(sent + group), FromBuckets(st, rand, i + 1, i + 1, st.buckets[i].count, st.buckets[i].upper))
  {
    FromBucketsStep(st, rand, i, first, latest, lower, FromBuckets(st, rand, i, first, latest, lower));
    PrefixedStep(NodesOf(sent), NodesOf(group), FromBuckets(st, rand, i + 1, i + 1, st.buckets[i].count, st.buckets[i].upper));
    NodesAppend(sent, group);
  }

  /** Where the loop stands: the first bucket of the chunk under way, its start, and what has been sent. */
  datatype Progress = Progress(firstBucket: int, latestCount: int, lowerValues: Key, sent: seq<Chunk>)

  ghost predicate OnTrack(st: Stats, rand: Sampler, columns: seq<string>, i: nat, p: Progress, goal: Run)
    requires st.chunkSize > 0 && i <= |st.buckets|
  {
    && p.firstBucket <= i && IsEnd(p.lowerValues, columns) && AllFit(p.sent, columns)
    && goal == Prefixed(NodesOf(p.sent), FromBuckets(st, rand, i, p.firstBucket, p.latestCount, End(p.lowerValues)))
  }

  lemma {:induction false} SmallPassed(st: Stats, rand: Sampler, columns: seq<string>, i: nat, p: Progress, goal: Run)
    requires st.chunkSize > 0 && i < |st.buckets| && OnTrack(st, rand, columns, i, p, goal)
    requires st.buckets[i].count - p.latestCount < st.chunkSize
    ensures OnTrack(st, rand, columns, i + 1, p, goal)
  {
    FromBucketsStep(st, rand, i, p.firstBucket, p.latestCount, End(p.lowerValues),
                    FromBuckets(st, rand, i, p.firstBucket, p.latestCount, End(p.lowerValues)));
  }

  lemma {:induction false} BadBound(st: Stats, rand: Sampler, columns: seq<string>, i: nat, p: Progress, goal: Run)
    requires st.chunkSize > 0 && i < |st.buckets| && OnTrack(st, rand, columns, i, p, goal)
    requires st.buckets[i].count - p.latestCount >= st.chunkSize && st.buckets[i].upper.None?
    ensures goal == Run(NodesOf(p.sent), true)
  {
    FromBucketsStep(st, rand, i, p.firstBucket, p.latestCount, End(p.lowerValues),
                    FromBuckets(st, rand, i, p.firstBucket, p.latestCount, End(p.lowerValues)));
  }

  lemma {:induction false} LargePassed(st: Stats, rand: Sampler, columns: seq<string>, i: nat, p: Progress, goal: Run, group: seq<Chunk>, count: int)
    requires st.chunkSize > 0 && i < |st.buckets| && OnTrack(st, rand, columns, i, p, goal)
    requires count == st.buckets[i].count - p.latestCount >= st.chunkSize
    requires st.buckets[i].upper.Some? && |st.buckets[i].upper.value| == |columns| && columns != []
    requires AllFit(group, columns)
    requires var chunkCnt := ChunkCnt(count, st.chunkSize, i == p.firstBucket);
             NodesOf(group) == Group(Interval(End(p.lowerValues), st.buckets[i].upper), Slot(p.firstBucket, i, 0, chunkCnt), chunkCnt, rand)
    ensures OnTrack(st, rand, columns, i + 1, Progress(i + 1, st.buckets[i].count, st.buckets[i].upper.value, p.sent + group), goal)
  {
    EndOf(st.buckets[i].upper.value, columns);
    BucketSent(st, rand, i, p.firstBucket, p.latestCount, End(p.lowerValues), p.sent, group, goal);
  }

  /** One bucket: a small one is merged into the chunk under way, a large one ends it. */
  method PassBucket(st: Stats, columns: seq<string>, rand: Sampler, i: nat, p: Progress, ghost goal: Run) returns (next: Progress, failed: bool)
    requires Indexed(columns) && Setting(st, rand) && st.width == |columns| && i < |st.buckets| && OnTrack(st, rand, columns, i, p, goal)
    ensures !failed ==> OnTrack(st, rand, columns, i + 1, next, goal)
    ensures failed ==> next == p && goal == Run(NodesOf(p.sent), true)
  {
    var count := st.buckets[i].count - p.latestCount;
    if count < st.chunkSize {
      // too few rows: the chunk goes on with the next bucket
      SmallPassed(st, rand, columns, i, p, goal);
      return p, false;
    }
    if st.buckets[i].upper.None? {
      BadBound(st, rand, columns, i, p, goal);
      return p, true;
    }
    var upperValues := st.buckets[i].upper.value;
    var group := ProduceBucket(columns, p.lowerValues, upperValues, p.firstBucket, i, count, st.chunkSize, rand);
    LargePassed(st, rand, columns, i, p, goal, group, count);
    return Progress(i + 1, st.buckets[i].count, upperValues, p.sent + group), false;
  }

  /** The loop over the buckets: small buckets are merged into one chunk, a large one is split. */
  method ProduceFrom(buckets: seq<BucketInfo>, columns: seq<string>, chunkSize: int, rand: Sampler,
                     start: nat, latest: int, lower: Key)
    returns (sent: seq<Chunk>, failed: bool)
    requires Indexed(columns) && Setting(Stats(buckets, |columns|, chunkSize), rand)
    requires start <= |buckets| && IsEnd(lower, columns)
    ensures Run(NodesOf(sent), failed) == FromBuckets(Stats(buckets, |columns|, chunkSize), rand, start, start, latest, End(lower))
    ensures AllFit(sent, columns)
  {
    var st := Stats(buckets, |columns|, chunkSize);
    ghost var goal := FromBuckets(st, rand, start, start, latest, End(lower));
    var p := Progress(start, latest, lower, []);
    for i := start to |buckets|
      invariant OnTrack(st, rand, columns, i, p, goal)
    {
      p, failed := PassBucket(st, columns, rand, i, p, goal);
      if failed {
        return p.sent, true;
      }
    }
    // the rows behind the last chunk
    var group := ProduceGroup(columns, p.lowerValues, [], Slot(p.firstBucket, |buckets|, 0, 1), 1, rand);
    NodesAppend(p.sent, group);
    return p.sent + group, false;
  }

  function Prefixed(before: seq<Node>, run: Run): Run {
    Run(before + run.chunks, run.failed)
  }

  lemma {:induction false} PrefixedStep(before: seq<Node>, group: seq<Node>, rest: Run)
    ensures Prefixed(before, Prefixed(group, rest)) == Prefixed(before + group, rest)
  {
    assert before + (group + rest.chunks) == before + group + rest.chunks;
  }

  // ---------- The random iterator ----------

  /** Builds all chunks of the random iterator at once, from scratch or from a saved chunk. */
  method NewRandomIterator(columns: seq<string>, rows: nat, configured: int, hasIndex: bool, rand: Sampler, start: Option<Chunk>)
    returns (chunks: seq<Chunk>)
    requires Indexed(columns) && GoodSampler(rand, |columns|)
    requires start.Some? ==> Fits(start.value.bounds, columns)
    ensures NodesOf(chunks) ==
            match start
            case None => FromRandom(RandomChunkCnt(rows, RandomChunkSize(configured, hasIndex, rows)), rand)
            case Some(c) => ResumeRandom(NodeOf(c), rand)
    ensures AllFit(chunks, columns)
  {
    if start.Some? {
      chunks := ResumeRandomIterator(columns, rand, start.value);
      return;
    }
    var chunkCnt := RandomChunkCnt(rows, RandomChunkSize(configured, hasIndex, rows));
    var chunkRange := NewRangeBetween(columns, [], []);
    chunks := SplitChunkForBucket(chunkRange, columns, Random, Slot(0, 0, 0, chunkCnt), chunkCnt, rand);
  }

  /** From a saved chunk on: nothing behind the last one, else the chunks that its group still lacks. */
  method ResumeRandomIterator(columns: seq<string>, rand: Sampler, c: Chunk) returns (chunks: seq<Chunk>)
    requires Indexed(columns) && GoodSampler(rand, |columns|) && Fits(c.bounds, columns)
    ensures NodesOf(chunks) == ResumeRandom(NodeOf(c), rand)
    ensures AllFit(chunks, columns)
  {
    EndsAgree(c);
    if c.isLast || NoUpper(c.bounds) {
      return [];
    }
    var chunkRange := NewRangeAfter(columns, c.bounds);
    var beginIndex, bucketChunkCnt := c.id.index + 1, c.id.count;
    ghost var span := IntervalOf(chunkRange.bounds);
    chunks := SplitChunkForBucket(chunkRange, columns, Random, Slot(0, 0, beginIndex, bucketChunkCnt), bucketChunkCnt - beginIndex, rand);
    ResumeRandomOf(c, span, Slot(0, 0, beginIndex, bucketChunkCnt), bucketChunkCnt - beginIndex, rand, NodesOf(chunks));
  }

  lemma {:induction false} ResumeRandomOf(c: Chunk, span: Interval, slot: Slot, splitCnt: int, rand: Sampler, g: seq<Node>)
    requires !LastOfTable(NodeOf(c)) && span == Interval(IntervalOf(c.bounds).upper, None)
    requires slot == Slot(0, 0, c.id.index + 1, c.id.count) && splitCnt == c.id.count - (c.id.index + 1) && g == Group(span, slot, splitCnt, rand)
    ensures g == ResumeRandom(NodeOf(c), rand)
  {
  }

  /** A new range that starts where a saved chunk ended and is open above. */
  method NewRangeAfter(columns: seq<string>, saved: seq<Bound>) returns (r: Range)
    requires Indexed(columns) && Uniform(saved) && Columns(saved) == columns && IntervalOf(saved).upper.Some?
    ensures fresh(r) && r.Valid() && !r.isFirst && !r.isLast
    ensures Fits(r.bounds, columns) && IntervalOf(r.bounds) == Interval(IntervalOf(saved).upper, None)
  {
    r := new Range();
    assert |saved| == |Columns(saved)|;
    UpdatedAllInterval([], columns, Uppers(saved), Blank(|saved|), true, false);
    r.UpdateLowers(saved);
  }

  // ---------- From conditions to rows ----------

  /** The compiled condition of a chunk is true for a row. */
  predicate Accepts(c: Chunk, row: TableRow) {
    var (cond, args) := Compile(c.bounds);
    var result := Eval(cond, row, args);
    result.Outcome? && result.rest == [] && result.tri == T
  }

  /** How many of the sent chunks' queries return a row. */
  function TimesSelected(sent: seq<Chunk>, row: TableRow): nat {
    if sent == [] then 0 else (if Accepts(sent[0], row) then 1 else 0) + TimesSelected(sent[1..], row)
  }

  /** A chunk's condition selects the rows of its interval, whether it bounds the index columns or none. */
  lemma {:induction false} AcceptsInterval(c: Chunk, columns: seq<string>, row: TableRow)
    requires Fits(c.bounds, columns)
    ensures Width(IntervalOf(c.bounds), |columns|)
    ensures Accepts(c, row) <==> Selects(IntervalOf(c.bounds), KeyOf(row, columns))
  {
    FitsWidth(c.bounds, columns);
    CompileMeaning(c.bounds, row);
  }

  lemma {:induction false} SelectedIsHits(sent: seq<Chunk>, columns: seq<string>, row: TableRow)
    requires AllFit(sent, columns)
    ensures Widths(Spans(NodesOf(sent)), |columns|)
    ensures TimesSelected(sent, row) == Hits(Spans(NodesOf(sent)), KeyOf(row, columns))
  {
    var ivs := Spans(NodesOf(sent));
    forall i | 0 <= i < |ivs|
      ensures Width(ivs[i], |columns|)
    {
      assert sent[i] in sent;
      FitsWidth(sent[i].bounds, columns);
    }
    if sent != [] {
      assert sent[0] in sent;
      AcceptsInterval(sent[0], columns, row);
      assert Spans(NodesOf(sent[1..])) == ivs[1..];
      SelectedIsHits(sent[1..], columns, row);
    }
  }

  /**
   * End to end, for a table with sorted bucket bounds: the chunks sent from scratch, each queried with its own
   * condition and arguments, return every row without NULL in the index columns exactly once.
   */
  lemma {:induction false} EveryRowOnce(sent: seq<Chunk>, st: Stats, columns: seq<string>, rand: Sampler, row: TableRow)
    requires Setting(st, rand) && SortedBuckets(st) && |columns| == st.width && AllFit(sent, columns)
    requires Run(NodesOf(sent), false) == FromBuckets(st, rand, 0, 0, 0, None)
    requires NonNull(KeyOf(row, columns))
    ensures TimesSelected(sent, row) == 1
  {
    SelectedIsHits(sent, columns, row);
    BucketsCover(st, rand);
    assert |KeyOf(row, columns)| == st.width;
  }

  /**
   * The same across a crash: what was sent up to the saved chunk and what the resumed iterator sends
   * return every such row exactly once, together.
   */
  lemma {:induction false} EveryRowOnceAcrossCrash(done: seq<Chunk>, more: seq<Chunk>, st: Stats, columns: seq<string>, rand: Sampler, row: TableRow)
    requires Setting(st, rand) && SortedBuckets(st) && |columns| == st.width && AllFit(done, columns) && AllFit(more, columns)
    requires done != [] && History(NodesOf(done), st)
    requires Run(NodesOf(more), false) == ResumeBuckets(st, rand, NodesOf(done)[|done| - 1])
    requires NonNull(KeyOf(row, columns))
    ensures TimesSelected(done + more, row) == 1
  {
    NodesAppend(done, more);
    BucketsCrashResume(st, rand, NodesOf(done), KeyOf(row, columns));
    SelectedIsHits(done + more, columns, row);
  }
}
