/**
 * How many rows and buckets go into a chunk (sync_diff_inspector/splitter/bucket.go), and how many chunks a sampled table
 * gets (sync_diff_inspector/splitter/random.go).
 */
module Grouping {
  import opened Wrappers
  import opened Keys
  import opened Cover
  import opened RandomSplit
  import opened Nodes
  import opened Producers

  /** The rows counted before a bucket, and where it starts. */
  function RowsBefore(st: Stats, i: nat): int
    requires i <= |st.buckets|
  {
    if i == 0 then 0 else st.buckets[i - 1].count
  }

  function StartOf(st: Stats, i: nat): Option<Key>
    requires i <= |st.buckets|
  {
    if i == 0 then None else st.buckets[i - 1].upper
  }

  /** The rows of the buckets from one to another. */
  function RowsOf(st: Stats, left: nat, right: nat): int
    requires left <= right < |st.buckets|
  {
    st.buckets[right].count - RowsBefore(st, left)
  }

  /** The nearest whole number of chunks of this size; a half is rounded up. */
  predicate Nearest(rows: int, size: int, n: int) {
    2 * (n * size - rows) <= size && 2 * (rows - n * size) < size
  }

  /** Too few rows for a chunk, up to each of these buckets. */
  predicate TooFew(st: Stats, left: nat, end: nat) {
    left <= end <= |st.buckets| && forall j :: left <= j < end ==> RowsOf(st, left, j) < st.chunkSize
  }

  /** The range of the buckets from one to another; behind the last bucket it is open. */
  function SpanOf(st: Stats, left: nat, right: nat): Interval
    requires left <= right <= |st.buckets|
  {
    Interval(StartOf(st, left), if right == |st.buckets| then None else st.buckets[right].upper)
  }

  /** The cut of its group's range that a chunk is, with one key less sampled than chunks announced. */
  predicate IsCut(c: Node, span: Interval, rand: Sampler) {
    var cuts := Cut(span, c.id.count, rand(span, c.id.count - 1));
    0 <= c.id.index < |cuts| && c.span == cuts[c.id.index]
  }

  /**
   * A chunk in its place: its group has the rows of its buckets, at least as many as wanted, but fewer without the last
   * bucket; a group of one bucket announces as many chunks as fit best, one of several buckets a single chunk.  What is left
   * behind the last group, too few rows, is one chunk.
   */
  predicate Placed(st: Stats, rand: Sampler, c: Node) {
    && 0 <= c.id.left <= c.id.right <= |st.buckets|
    && TooFew(st, c.id.left, c.id.right)
    && (c.id.right < |st.buckets| ==> RowsOf(st, c.id.left, c.id.right) >= st.chunkSize)
    && (if c.id.left == c.id.right < |st.buckets| then Nearest(RowsOf(st, c.id.left, c.id.right), st.chunkSize, c.id.count)
        else c.id.count == 1)
    && IsCut(c, SpanOf(st, c.id.left, c.id.right), rand)
  }

  predicate AllPlaced(st: Stats, rand: Sampler, chunks: seq<Node>) {
    forall k :: 0 <= k < |chunks| ==> Placed(st, rand, chunks[k])
  }

  lemma {:induction false} Rounds(rows: int, size: int)
    requires size > 0
    ensures Nearest(rows, size, (rows + size / 2) / size)
  {
    var n, half := (rows + size / 2) / size, size / 2;
    var rest := (rows + half) % size;
    assert rows + half == n * size + rest;
    assert size == 2 * half + size % 2;
  }

  /** No other number is nearest. */
  lemma {:induction false} NearestOnce(rows: int, size: int, n: int, m: int)
    requires size > 0 && Nearest(rows, size, n) && Nearest(rows, size, m)
    ensures n == m
  {
    assert 2 * ((n - m) * size) < 2 * size && 2 * ((m - n) * size) < 2 * size;
    if n > m {
      Times(n - m, size);
    } else if m > n {
      Times(m - n, size);
    }
  }

  lemma {:induction false} Times(n: int, size: int)
    requires n >= 1 && size > 0
    ensures n * size >= size
  {
    assert n * size == (n - 1) * size + size;
  }

  lemma {:induction false} GroupPlaced(st: Stats, rand: Sampler, left: nat, right: nat, n: int)
    requires left <= right <= |st.buckets| && TooFew(st, left, right)
    requires right < |st.buckets| ==> RowsOf(st, left, right) >= st.chunkSize
    requires if left == right < |st.buckets| then Nearest(RowsOf(st, left, right), st.chunkSize, n) else n == 1
    ensures AllPlaced(st, rand, Group(SpanOf(st, left, right), Slot(left, right, 0, n), n, rand))
  {
  }

  /** Every chunk that the loop emits is in its place. */
  lemma {:induction false} LoopPlaced(st: Stats, rand: Sampler, i: nat, first: nat)
    requires st.chunkSize > 0 && first <= i <= |st.buckets| && TooFew(st, first, i)
    ensures AllPlaced(st, rand, FromBuckets(st, rand, i, first, RowsBefore(st, first), StartOf(st, first)).chunks)
    decreases |st.buckets| - i
  {
    if i == |st.buckets| {
      GroupPlaced(st, rand, first, i, 1);
    } else if RowsOf(st, first, i) < st.chunkSize {
      LoopPlaced(st, rand, i + 1, first);
    } else if st.buckets[i].upper.Some? {
      Rounds(RowsOf(st, first, i), st.chunkSize);
      GroupPlaced(st, rand, first, i, ChunkCnt(RowsOf(st, first, i), st.chunkSize, i == first));
      LoopPlaced(st, rand, i + 1, i + 1);
    }
  }

  /** From scratch. */
  lemma {:induction false} FreshPlaced(st: Stats, rand: Sampler)
    requires st.chunkSize > 0
    ensures AllPlaced(st, rand, FromBuckets(st, rand, 0, 0, 0, None).chunks)
  {
    LoopPlaced(st, rand, 0, 0);
  }

  /** A chunk of the saved chunk's group: what was left of its range is cut into as many as were still announced. */
  predicate LeftOver(st: Stats, rand: Sampler, saved: Node, c: Node)
    requires 0 <= saved.id.right < |st.buckets|
  {
    var span, n := Interval(saved.span.upper, st.buckets[saved.id.right].upper), saved.id.count - saved.id.index - 1;
    var cuts := Cut(span, n, rand(span, n - 1));
    && c.id.left == saved.id.left && c.id.right == saved.id.right && c.id.count == saved.id.count
    && saved.id.index < c.id.index <= saved.id.index + |cuts| && c.span == cuts[c.id.index - saved.id.index - 1]
  }

  /** From a saved chunk: first what is left of its group, if anything is, and then chunks in their places behind it. */
  lemma {:induction false} ResumedPlaced(st: Stats, rand: Sampler, saved: Node) returns (left: seq<Node>, behind: seq<Node>)
    requires st.chunkSize > 0 && !LastOfTable(saved) && 0 <= saved.id.right < |st.buckets| && st.buckets[saved.id.right].upper.Some?
    ensures ResumeBuckets(st, rand, saved).chunks == left + behind && AllPlaced(st, rand, behind)
    ensures forall k :: 0 <= k < |left| ==> LeftOver(st, rand, saved, left[k])
    ensures left == [] <==> saved.id.index >= saved.id.count - 1
  {
    var right := saved.id.right;
    left := LeftGroup(st, rand, saved);
    behind := FromBuckets(st, rand, right + 1, right + 1, st.buckets[right].count, st.buckets[right].upper).chunks;
    LoopPlaced(st, rand, right + 1, right + 1);
  }

  // ---------- Sampled tables ----------

  /** A table of `rows` rows gets as few chunks as hold them, and none when it is empty. */
  lemma {:induction false} ChunksHold(rows: nat, size: int)
    requires size > 0
    ensures var n := RandomChunkCnt(rows, size);
            (n - 1) * size < rows <= n * size || n == rows == 0
  {
    var n := RandomChunkCnt(rows, size);
    var rest := (rows + size - 1) % size;
    assert rows + size - 1 == n * size + rest;
  }

  /**
   * The wanted size is the configured one.  Without one, a table without index is not split, and one with an index gets
   * chunks of 50000 rows, or 10000 chunks and at most one more if they would be more than that.
   */
  lemma {:induction false} ChunkSizes(configured: int, hasIndex: bool, rows: nat)
    ensures var size := RandomChunkSize(configured, hasIndex, rows);
            && (configured > 0 ==> size == configured)
            && (configured <= 0 && !hasIndex ==> RandomChunkCnt(rows, size) <= 1)
            && (configured <= 0 && hasIndex && rows <= 500000000 ==> size == 50000)
            && (configured <= 0 && hasIndex && rows > 500000000 ==> size >= 50000 && 10000 <= RandomChunkCnt(rows, size) <= 10001)
  {
    var size := RandomChunkSize(configured, hasIndex, rows);
    var n := RandomChunkCnt(rows, size);
    ChunksHold(rows, size);
    if configured <= 0 && !hasIndex {
      if n > 1 {
        Times(n - 1, size);
      }
    } else if configured <= 0 && rows > 500000000 {
      assert rows == 10000 * size + rows % 10000;
      if n > 10001 {
        TimesMore(n - 1, 10001, size);
      }
      if n < 10000 {
        TimesMore(9999, n, size);
      }
    }
  }

  lemma {:induction false} TimesMore(n: int, m: int, size: int)
    requires n >= m && size > 0
    ensures n * size >= m * size
  {
    assert n * size == m * size + (n - m) * size;
    if n > m {
      Times(n - m, size);
    }
  }

  /** Each chunk is the cut of the whole table that its index says, and a resumed run cuts what is left. */
  lemma {:induction false} RandomPlaced(chunkCnt: nat, rand: Sampler, saved: Node)
    ensures var p := FromRandom(chunkCnt, rand);
            forall k :: 0 <= k < |p| ==> p[k].id.count == chunkCnt && IsCut(p[k], Interval(None, None), rand)
    ensures var p, span, n := ResumeRandom(saved, rand), Interval(saved.span.upper, None), saved.id.count - saved.id.index - 1;
            var cuts := Cut(span, n, rand(span, n - 1));
            forall k :: 0 <= k < |p| ==>
              && p[k].id.count == saved.id.count && saved.id.index < p[k].id.index <= saved.id.index + |cuts|
              && p[k].span == cuts[p[k].id.index - saved.id.index - 1]
  {
  }

  // ---------- Where a run ends ----------

  /** From a bucket on there are rows enough for a chunk, and the bound where it should end cannot be analysed. */
  predicate Unreadable(st: Stats, left: nat) {
    left <= |st.buckets| && exists j :: left <= j < |st.buckets| && TooFew(st, left, j) && RowsOf(st, left, j) >= st.chunkSize && st.buckets[j].upper.None?
  }

  /** The bucket behind those that have been emitted. */
  function NextBucket(first: nat, chunks: seq<Node>): int {
    if chunks == [] then first else chunks[|chunks| - 1].id.right + 1
  }

  /** How a run that starts at a bucket may end: at such a bound if it failed, else behind all buckets. */
  predicate EndsWell(st: Stats, run: Run, next: int) {
    if run.failed then next >= 0 && Unreadable(st, next) else next == |st.buckets| + 1
  }

  /** The loop fails exactly at such a bound; else it has emitted all buckets. */
  lemma {:induction false} LoopEnds(st: Stats, rand: Sampler, i: nat, first: nat)
    requires st.chunkSize > 0 && first <= i <= |st.buckets| && TooFew(st, first, i)
    ensures var run := FromBuckets(st, rand, i, first, RowsBefore(st, first), StartOf(st, first));
            EndsWell(st, run, NextBucket(first, run.chunks))
    decreases |st.buckets| - i
  {
    if i == |st.buckets| {
      GroupRight(SpanOf(st, first, i), Slot(first, i, 0, 1), 1, rand);
    } else if RowsOf(st, first, i) < st.chunkSize {
      LoopEnds(st, rand, i + 1, first);
    } else if st.buckets[i].upper.Some? {
      LoopEnds(st, rand, i + 1, i + 1);
      LargeEnds(st, rand, i, first, FromBuckets(st, rand, i + 1, i + 1, RowsBefore(st, i + 1), StartOf(st, i + 1)));
    }
  }

  lemma {:induction false} LargeEnds(st: Stats, rand: Sampler, i: nat, first: nat, rest: Run)
    requires st.chunkSize > 0 && first <= i < |st.buckets| && RowsOf(st, first, i) >= st.chunkSize && st.buckets[i].upper.Some?
    requires rest == FromBuckets(st, rand, i + 1, i + 1, RowsBefore(st, i + 1), StartOf(st, i + 1))
    requires EndsWell(st, rest, NextBucket(i + 1, rest.chunks))
    ensures var run := FromBuckets(st, rand, i, first, RowsBefore(st, first), StartOf(st, first));
            EndsWell(st, run, NextBucket(first, run.chunks))
  {
    var n := ChunkCnt(RowsOf(st, first, i), st.chunkSize, i == first);
    GroupRight(SpanOf(st, first, i), Slot(first, i, 0, n), n, rand);
    BucketEnds(st, first, i, Group(SpanOf(st, first, i), Slot(first, i, 0, n), n, rand), rest);
  }

  lemma {:induction false} BucketEnds(st: Stats, first: nat, i: nat, group: seq<Node>, rest: Run)
    requires group != [] && group[|group| - 1].id.right == i && EndsWell(st, rest, NextBucket(i + 1, rest.chunks))
    ensures EndsWell(st, Run(group + rest.chunks, rest.failed), NextBucket(first, group + rest.chunks))
  {
    NextBehind(first, group, rest.chunks, i);
  }

  lemma {:induction false} GroupRight(span: Interval, slot: Slot, n: int, rand: Sampler)
    ensures var g := Group(span, slot, n, rand); g != [] && g[|g| - 1].id.right == slot.right
  {
  }

  lemma {:induction false} NextBehind(first: nat, group: seq<Node>, rest: seq<Node>, i: nat)
    requires group != [] && group[|group| - 1].id.right == i
    ensures NextBucket(first, group + rest) == NextBucket(i + 1, rest)
  {
  }

  /** From scratch a run fails exactly where rows enough for a chunk end at a bound that cannot be analysed. */
  lemma {:induction false} FreshEnds(st: Stats, rand: Sampler)
    requires st.chunkSize > 0
    ensures var run := FromBuckets(st, rand, 0, 0, 0, None);
            EndsWell(st, run, NextBucket(0, run.chunks))
  {
    LoopEnds(st, rand, 0, 0);
  }

  /** Behind the last chunk of a table nothing is resumed; a saved bucket that is not there or cannot be analysed is an error. */
  lemma {:induction false} ResumedEnds(st: Stats, rand: Sampler, saved: Node)
    requires st.chunkSize > 0 && (LastOfTable(saved) || saved.id.right >= 0)
    ensures LastOfTable(saved) ==> ResumeBuckets(st, rand, saved) == Run([], false)
    ensures !LastOfTable(saved) && (saved.id.right >= |st.buckets| || st.buckets[saved.id.right].upper.None?) ==>
              ResumeBuckets(st, rand, saved) == Run([], true)
    ensures !LastOfTable(saved) && saved.id.right < |st.buckets| && st.buckets[saved.id.right].upper.Some? ==>
              (ResumeBuckets(st, rand, saved).failed <==>
               FromBuckets(st, rand, saved.id.right + 1, saved.id.right + 1, st.buckets[saved.id.right].count, st.buckets[saved.id.right].upper).failed)
  {
  }
}
