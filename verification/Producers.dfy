/**
 * What the chunk producers emit: over histogram buckets (sync_diff_inspector/splitter/bucket.go) and over
 * sampled rows (sync_diff_inspector/splitter/random.go), each from scratch or from a saved chunk.
 */
module Producers {
  import opened Wrappers
  import opened Keys
  import opened Cover
  import opened Chunks
  import opened RandomSplit
  import opened Nodes

  /** A histogram bucket: rows counted up to its end, and its upper bound when that text can be analysed. */
  datatype BucketInfo = BucketInfo(count: int, upper: Option<Key>)

  /** What a run starts from: the histogram, the number of index columns and the wanted rows per chunk. */
  datatype Stats = Stats(buckets: seq<BucketInfo>, width: nat, chunkSize: int)

  /** The sampling query, for one run: from a range and a row limit to keys. */
  type Sampler = (Interval, int) -> seq<Key>

  ghost predicate GoodSampler(rand: Sampler, width: nat) {
    forall span: Interval, num: int :: Width(span, width) ==> IsSample(span, num, rand(span, num), width)
  }

  predicate BucketWidths(buckets: seq<BucketInfo>, width: nat) {
    forall i :: 0 <= i < |buckets| && buckets[i].upper.Some? ==> |buckets[i].upper.value| == width
  }

  ghost predicate Setting(st: Stats, rand: Sampler) {
    st.chunkSize > 0 && BucketWidths(st.buckets, st.width) && GoodSampler(rand, st.width)
  }

  /** What a producer sent, and whether it stopped on an error. */
  datatype Run = Run(chunks: seq<Node>, failed: bool)

  // ---------- Groups ----------

  /** Where a group of chunks stands: its buckets, its first chunk index and its announced size. */
  datatype Slot = Slot(left: int, right: int, index: int, count: int)

  function Number(ivs: seq<Interval>, slot: Slot): seq<Node> {
    seq(|ivs|, i requires 0 <= i < |ivs| =>
      Node(ChunkID(0, slot.left, slot.right, slot.index + i, slot.count), ivs[i], false, false))
  }

  /** The chunks of one group: the cuts of an interval, numbered from the slot's index on. */
  function Group(span: Interval, slot: Slot, splitCnt: int, rand: Sampler): seq<Node> {
    Number(Cut(span, splitCnt, rand(span, splitCnt - 1)), slot)
  }

  predicate SlotOk(slot: Slot, splitCnt: int) {
    slot.left <= slot.right && 0 <= slot.index &&
    slot.index + (if splitCnt > 1 then splitCnt else 1) <= (if slot.count > 1 then slot.count else 1)
  }

  /** The first chunk starts where the range starts, the last ends where it ends, and each continues the one before. */
  lemma {:induction false} GroupShape(span: Interval, slot: Slot, splitCnt: int, rand: Sampler, w: nat)
    requires GoodSampler(rand, w) && Width(span, w) && SlotOk(slot, splitCnt)
    ensures var g := Group(span, slot, splitCnt, rand);
            && Path(g) && 1 <= |g| <= (if splitCnt > 1 then splitCnt else 1)
            && g[0].span.lower == span.lower && g[|g| - 1].span.upper == span.upper
            && (forall k :: 0 <= k < |g| ==> Width(g[k].span, w) && (Ordered(span) ==> Ordered(g[k].span)))
            && (forall k :: 0 <= k < |g| - 1 ==> g[k].span.upper.Some?)
  {
    var sample := rand(span, splitCnt - 1);
    assert IsSample(span, splitCnt - 1, sample, w);
    CutsChain(span, splitCnt, sample, w);
    var ivs := Cut(span, splitCnt, sample);
    var g := Group(span, slot, splitCnt, rand);
    forall k | 0 <= k < |g| - 1
      ensures Continues(g[k], g[k + 1])
    {
      assert ivs[k].upper.Some? && ivs[k + 1].lower == ivs[k].upper;
    }
    PathFrom(g);
  }

  /** Every key a range is cut at lies in the range. */
  lemma {:induction false} GroupInside(span: Interval, slot: Slot, splitCnt: int, rand: Sampler, w: nat, k: nat)
    requires GoodSampler(rand, w) && Width(span, w) && span.upper.Some?
    requires k < |Group(span, slot, splitCnt, rand)|
    ensures var end := Group(span, slot, splitCnt, rand)[k].span.upper;
            end.Some? && |end.value| == w && LexLeq(end.value, span.upper.value)
  {
    var sample := rand(span, splitCnt - 1);
    assert IsSample(span, splitCnt - 1, sample, w);
    if splitCnt > 1 && k < |sample| {
      AfterIsLex(sample[k], span.upper.value);
    } else {
      LexTotal(span.upper.value, span.upper.value);
    }
  }

  // ---------- The bucket producer ----------

  /** How many chunks a group is split into: several only for a single bucket that is large enough. */
  function ChunkCnt(count: int, chunkSize: int, single: bool): int
    requires chunkSize > 0
  {
    if single then (count + chunkSize / 2) / chunkSize else 1
  }

  /** The loop, from bucket `i` with the chunk under way starting at bucket `first`. */
  function FromBuckets(st: Stats, rand: Sampler, i: nat, first: int, latest: int, lower: Option<Key>): Run
    requires st.chunkSize > 0 && i <= |st.buckets|
    decreases |st.buckets| - i
  {
    if i == |st.buckets| then
      Run(Group(Interval(lower, None), Slot(first, i, 0, 1), 1, rand), false)
    else if st.buckets[i].count - latest < st.chunkSize then FromBuckets(st, rand, i + 1, first, latest, lower)
    else if st.buckets[i].upper.None? then Run([], true)
    else
      var chunkCnt := ChunkCnt(st.buckets[i].count - latest, st.chunkSize, i == first);
      var group := Group(Interval(lower, st.buckets[i].upper), Slot(first, i, 0, chunkCnt), chunkCnt, rand);
      var rest := FromBuckets(st, rand, i + 1, i + 1, st.buckets[i].count, st.buckets[i].upper);
      Run(group + rest.chunks, rest.failed)
  }

  /** The left-over group of a resumed run. */
  function LeftGroup(st: Stats, rand: Sampler, saved: Node): seq<Node>
    requires 0 <= saved.id.right < |st.buckets|
  {
    var leftCnt := saved.id.count - saved.id.index - 1;
    if leftCnt > 0 then
      Group(Interval(saved.span.upper, st.buckets[saved.id.right].upper),
            Slot(saved.id.left, saved.id.right, saved.id.index + 1, saved.id.count), leftCnt, rand)
    else []
  }

  function ResumeBuckets(st: Stats, rand: Sampler, saved: Node): Run
    requires st.chunkSize > 0 && (LastOfTable(saved) || saved.id.right >= 0)
  {
    var right := saved.id.right;
    if LastOfTable(saved) then Run([], false)
    else if right >= |st.buckets| || st.buckets[right].upper.None? then Run([], true)
    else
      var rest := FromBuckets(st, rand, right + 1, right + 1, st.buckets[right].count, st.buckets[right].upper);
      Run(LeftGroup(st, rand, saved) + rest.chunks, rest.failed)
  }

  /** A saved chunk from which the bucket producer can go on. */
  predicate Resumable(c: Node, st: Stats) {
    && 0 <= c.id.left <= c.id.right < |st.buckets| && 0 <= c.id.index < c.id.count
    && c.span.upper.Some? && |c.span.upper.value| == st.width
    && st.buckets[c.id.right].upper.Some? && |st.buckets[c.id.right].upper.value| == st.width
    && LexLeq(c.span.upper.value, st.buckets[c.id.right].upper.value)
    && (c.id.index == c.id.count - 1 ==> c.span.upper == st.buckets[c.id.right].upper)
  }

  predicate Sound(c: Node, st: Stats) {
    && c.id.table == 0 && !c.isFirst && !c.isLast && Width(c.span, st.width)
    && (LastOfTable(c) || Resumable(c, st))
  }

  lemma {:induction false} EmitsOneTable(run: Run, st: Stats)
    requires Emits(run, st)
    ensures OneTable(run.chunks, st.width)
  {
    forall i | 0 <= i < |run.chunks|
      ensures Sound(run.chunks[i], st)
    {
      assert run.chunks[i] in run.chunks;
    }
  }

  /** A path of one table; it runs to the end of the table unless the run failed. */
  predicate Emits(run: Run, st: Stats) {
    && Path(run.chunks)
    && (forall c :: c in run.chunks ==> Sound(c, st))
    && (!run.failed ==> run.chunks != [] && LastOfTable(run.chunks[|run.chunks| - 1]))
  }

  predicate StartsAt(chunks: seq<Node>, lower: Option<Key>, left: int) {
    chunks != [] ==> chunks[0].span.lower == lower && chunks[0].id.left == left && chunks[0].id.index == 0
  }

  /** All chunks of a group that ends at its bucket's upper bound can be resumed from. */
  lemma {:induction false} GroupResumable(span: Interval, slot: Slot, splitCnt: int, rand: Sampler, st: Stats)
    requires GoodSampler(rand, st.width) && Width(span, st.width)
    requires 0 <= slot.left <= slot.right < |st.buckets| && 0 <= slot.index && splitCnt >= 1 && slot.index + splitCnt == slot.count
    requires span.upper.Some? && span.upper == st.buckets[slot.right].upper
    ensures forall c :: c in Group(span, slot, splitCnt, rand) ==> Sound(c, st) && Resumable(c, st)
  {
    GroupShape(span, slot, splitCnt, rand, st.width);
    var g := Group(span, slot, splitCnt, rand);
    forall k | 0 <= k < |g|
      ensures Sound(g[k], st) && Resumable(g[k], st)
    {
      GroupInside(span, slot, splitCnt, rand, st.width, k);
    }
  }

  lemma {:induction false} GroupEnds(span: Interval, slot: Slot, splitCnt: int, rand: Sampler, w: nat)
    requires GoodSampler(rand, w) && Width(span, w) && SlotOk(slot, splitCnt)
    ensures var g := Group(span, slot, splitCnt, rand);
            && g != [] && g[0].id == ChunkID(0, slot.left, slot.right, slot.index, slot.count) && g[0].span.lower == span.lower
            && g[|g| - 1].id == ChunkID(0, slot.left, slot.right, slot.index + |g| - 1, slot.count) && g[|g| - 1].span.upper == span.upper
  {
    GroupShape(span, slot, splitCnt, rand, w);
  }

  lemma {:induction false} SoundAppend(g: seq<Node>, more: seq<Node>, st: Stats)
    requires (forall c :: c in g ==> Sound(c, st)) && (forall c :: c in more ==> Sound(c, st))
    ensures forall c :: c in g + more ==> Sound(c, st)
  {
  }

  lemma {:induction false} EmitsAppend(g: seq<Node>, rest: Run, st: Stats)
    requires g != [] && Path(g) && (forall c :: c in g ==> Sound(c, st)) && Emits(rest, st)
    requires rest.chunks != [] ==> Continues(g[|g| - 1], rest.chunks[0])
    ensures Emits(Run(g + rest.chunks, rest.failed), st) && (g + rest.chunks)[0] == g[0]
  {
    PathAppend(g, rest.chunks);
    SoundAppend(g, rest.chunks, st);
    if !rest.failed {
      assert (g + rest.chunks)[|g + rest.chunks| - 1] == rest.chunks[|rest.chunks| - 1];
    }
  }

  /** A group that ends at its bucket's upper bound, then the run over the buckets behind it. */
  lemma {:induction false} GroupThen(span: Interval, slot: Slot, splitCnt: int, rand: Sampler, st: Stats, rest: Run)
    requires GoodSampler(rand, st.width) && Width(span, st.width)
    requires 0 <= slot.left <= slot.right < |st.buckets| && 0 <= slot.index && splitCnt >= 1 && slot.index + splitCnt == slot.count
    requires span.upper.Some? && span.upper == st.buckets[slot.right].upper
    requires Emits(rest, st) && StartsAt(rest.chunks, st.buckets[slot.right].upper, slot.right + 1)
    ensures var g := Group(span, slot, splitCnt, rand);
            && Emits(Run(g + rest.chunks, rest.failed), st)
            && g != [] && (g + rest.chunks)[0] == g[0] && g[0].span.lower == span.lower
  {
    var g := Group(span, slot, splitCnt, rand);
    GroupPath(span, slot, splitCnt, rand, st.width);
    GroupEnds(span, slot, splitCnt, rand, st.width);
    GroupResumable(span, slot, splitCnt, rand, st);
    if rest.chunks != [] {
      assert Sound(rest.chunks[0], st);
    }
    EmitsAppend(g, rest, st);
  }

  lemma {:induction false} GroupPath(span: Interval, slot: Slot, splitCnt: int, rand: Sampler, w: nat)
    requires GoodSampler(rand, w) && Width(span, w) && SlotOk(slot, splitCnt)
    ensures Path(Group(span, slot, splitCnt, rand))
  {
    GroupShape(span, slot, splitCnt, rand, w);
  }

  lemma {:induction false} ChunkCntPositive(count: int, chunkSize: int, single: bool)
    requires 0 < chunkSize <= count
    ensures ChunkCnt(count, chunkSize, single) >= 1
  {
  }

  /**
   * From any point of the loop, the producer emits a path that starts where the loop stands and, unless it
   * stops on an error, runs to the end of the table; each of its chunks but the last can be resumed from.
   */
  lemma {:induction false} FromBucketsEmits(st: Stats, rand: Sampler, i: nat, first: int, latest: int, lower: Option<Key>)
    requires Setting(st, rand) && 0 <= first <= i <= |st.buckets|
    requires lower.Some? ==> |lower.value| == st.width
    ensures var run := FromBuckets(st, rand, i, first, latest, lower);
            Emits(run, st) && StartsAt(run.chunks, lower, first)
    decreases |st.buckets| - i
  {
    if i == |st.buckets| {
      LastGroupEmits(st, rand, first, lower);
    } else if st.buckets[i].count - latest < st.chunkSize {
      FromBucketsEmits(st, rand, i + 1, first, latest, lower);
    } else if st.buckets[i].upper.Some? {
      FromBucketsEmits(st, rand, i + 1, i + 1, st.buckets[i].count, st.buckets[i].upper);
      BucketEmits(st, rand, i, first, latest, lower, FromBuckets(st, rand, i + 1, i + 1, st.buckets[i].count, st.buckets[i].upper));
    }
  }

  lemma {:induction false} LastGroupEmits(st: Stats, rand: Sampler, first: nat, lower: Option<Key>)
    requires GoodSampler(rand, st.width) && first <= |st.buckets| && (lower.Some? ==> |lower.value| == st.width)
    ensures var chunks := Group(Interval(lower, None), Slot(first, |st.buckets|, 0, 1), 1, rand);
            Emits(Run(chunks, false), st) && StartsAt(chunks, lower, first)
  {
    GroupShape(Interval(lower, None), Slot(first, |st.buckets|, 0, 1), 1, rand, st.width);
  }

  lemma {:induction false} BucketEmits(st: Stats, rand: Sampler, i: nat, first: nat, latest: int, lower: Option<Key>, rest: Run)
    requires Setting(st, rand) && first <= i < |st.buckets| && (lower.Some? ==> |lower.value| == st.width)
    requires st.buckets[i].count - latest >= st.chunkSize && st.buckets[i].upper.Some?
    requires Emits(rest, st) && StartsAt(rest.chunks, st.buckets[i].upper, i + 1)
    ensures var chunkCnt := ChunkCnt(st.buckets[i].count - latest, st.chunkSize, i == first);
            var chunks := Group(Interval(lower, st.buckets[i].upper), Slot(first, i, 0, chunkCnt), chunkCnt, rand) + rest.chunks;
            Emits(Run(chunks, rest.failed), st) && StartsAt(chunks, lower, first)
  {
    var chunkCnt := ChunkCnt(st.buckets[i].count - latest, st.chunkSize, i == first);
    ChunkCntPositive(st.buckets[i].count - latest, st.chunkSize, i == first);
    GroupThen(Interval(lower, st.buckets[i].upper), Slot(first, i, 0, chunkCnt), chunkCnt, rand, st, rest);
    GroupEnds(Interval(lower, st.buckets[i].upper), Slot(first, i, 0, chunkCnt), chunkCnt, rand, st.width);
  }

  predicate Saved(saved: Node, st: Stats) {
    Resumable(saved, st) && saved.id.table == 0 && !saved.isFirst && !saved.isLast
  }

  /** Chunks that start where the saved one ends, in its group or right behind it, follow it. */
  lemma {:induction false} FollowsSaved(saved: Node, more: seq<Node>, st: Stats)
    requires Saved(saved, st) && Path(more)
    requires more != [] ==> more[0].id.table == 0 && more[0].span.lower == saved.span.upper
    requires more != [] ==> (SameGroup(saved, more[0]) && more[0].id.index == saved.id.index + 1)
                            || (more[0].id.left == saved.id.right + 1 && more[0].id.index == 0)
    ensures Path([saved] + more)
  {
    PathAppend([saved], more);
  }

  /** With part of the saved chunk's group still to come. */
  lemma {:induction false} ContinuesInGroup(st: Stats, rand: Sampler, saved: Node, rest: Run)
    requires Setting(st, rand) && Saved(saved, st) && saved.id.index < saved.id.count - 1
    requires Emits(rest, st) && StartsAt(rest.chunks, st.buckets[saved.id.right].upper, saved.id.right + 1)
    ensures Emits(Run(LeftGroup(st, rand, saved) + rest.chunks, rest.failed), st)
    ensures Path([saved] + (LeftGroup(st, rand, saved) + rest.chunks))
  {
    var slot := Slot(saved.id.left, saved.id.right, saved.id.index + 1, saved.id.count);
    var span := Interval(saved.span.upper, st.buckets[saved.id.right].upper);
    var leftCnt := saved.id.count - saved.id.index - 1;
    LeftGroupIs(st, rand, saved);
    GroupThen(span, slot, leftCnt, rand, st, rest);
    GroupEnds(span, slot, leftCnt, rand, st.width);
    FollowsGroup(saved, Group(span, slot, leftCnt, rand) + rest.chunks, rest.failed, st, slot);
  }

  lemma {:induction false} LeftGroupIs(st: Stats, rand: Sampler, saved: Node)
    requires 0 <= saved.id.right < |st.buckets| && saved.id.index < saved.id.count - 1
    ensures LeftGroup(st, rand, saved) ==
            Group(Interval(saved.span.upper, st.buckets[saved.id.right].upper), Slot(saved.id.left, saved.id.right, saved.id.index + 1, saved.id.count),
                  saved.id.count - saved.id.index - 1, rand)
  {
  }

  lemma {:induction false} FollowsGroup(saved: Node, more: seq<Node>, failed: bool, st: Stats, slot: Slot)
    requires Saved(saved, st) && Emits(Run(more, failed), st) && more != []
    requires slot == Slot(saved.id.left, saved.id.right, saved.id.index + 1, saved.id.count)
    requires more[0].id == ChunkID(0, slot.left, slot.right, slot.index, slot.count) && more[0].span.lower == saved.span.upper
    ensures Path([saved] + more)
  {
    FollowsSaved(saved, more, st);
  }

  /** With the saved chunk the last of its group. */
  lemma {:induction false} ContinuesBehindGroup(saved: Node, st: Stats, rest: Run)
    requires Saved(saved, st) && saved.id.index == saved.id.count - 1
    requires Emits(rest, st) && StartsAt(rest.chunks, st.buckets[saved.id.right].upper, saved.id.right + 1)
    ensures Path([saved] + rest.chunks)
  {
    if rest.chunks != [] {
      assert Sound(rest.chunks[0], st);
    }
    FollowsSaved(saved, rest.chunks, st);
  }

  /**
   * Started again from a saved chunk, the bucket producer continues right after it: in the rest of its group if the
   * group is not finished, else in the next bucket.
   */
  lemma {:induction false} ResumeBucketsContinues(st: Stats, rand: Sampler, saved: Node)
    requires Setting(st, rand) && Saved(saved, st)
    ensures Emits(ResumeBuckets(st, rand, saved), st)
    ensures Path([saved] + ResumeBuckets(st, rand, saved).chunks)
  {
    var right := saved.id.right;
    var rest := FromBuckets(st, rand, right + 1, right + 1, st.buckets[right].count, st.buckets[right].upper);
    FromBucketsEmits(st, rand, right + 1, right + 1, st.buckets[right].count, st.buckets[right].upper);
    assert ResumeBuckets(st, rand, saved) == Run(LeftGroup(st, rand, saved) + rest.chunks, rest.failed);
    if saved.id.index < saved.id.count - 1 {
      ContinuesInGroup(st, rand, saved, rest);
    } else {
      ContinuesBehindGroup(saved, st, rest);
      assert [] + rest.chunks == rest.chunks;
    }
  }

  /** The loop stops on an error only at a bucket bound that cannot be analysed. */
  lemma {:induction false} FromBucketsFails(st: Stats, rand: Sampler, i: nat, first: int, latest: int, lower: Option<Key>)
    requires st.chunkSize > 0 && i <= |st.buckets|
    ensures FromBuckets(st, rand, i, first, latest, lower).failed ==>
            exists j :: i <= j < |st.buckets| && st.buckets[j].upper.None?
    decreases |st.buckets| - i
  {
    if i < |st.buckets| {
      if st.buckets[i].count - latest < st.chunkSize {
        FromBucketsFails(st, rand, i + 1, first, latest, lower);
      } else if st.buckets[i].upper.Some? {
        FromBucketsFails(st, rand, i + 1, i + 1, st.buckets[i].count, st.buckets[i].upper);
      }
    }
  }

  // ---------- Order ----------

  /** Upper bounds never decrease from one bucket to the next. */
  predicate SortedBuckets(st: Stats)
    requires BucketWidths(st.buckets, st.width)
  {
    forall i, j :: 0 <= i < j < |st.buckets| && st.buckets[i].upper.Some? && st.buckets[j].upper.Some? ==>
      LexLeq(st.buckets[i].upper.value, st.buckets[j].upper.value)
  }

  predicate InOrder(chunks: seq<Node>) {
    forall i :: 0 <= i < |chunks| ==> Ordered(chunks[i].span)
  }

  lemma {:induction false} InOrderAppend(a: seq<Node>, b: seq<Node>)
    requires InOrder(a) && InOrder(b)
    ensures InOrder(a + b)
  {
  }

  lemma {:induction false} InOrderBoth(a: seq<Node>, b: seq<Node>)
    requires InOrder(a + b)
    ensures InOrder(a) && InOrder(b)
  {
    assert forall i :: 0 <= i < |a| ==> (a + b)[i] == a[i];
    assert forall i :: 0 <= i < |b| ==> (a + b)[|a| + i] == b[i];
  }

  lemma {:induction false} GroupInOrder(span: Interval, slot: Slot, splitCnt: int, rand: Sampler, w: nat)
    requires GoodSampler(rand, w) && Width(span, w) && SlotOk(slot, splitCnt) && Ordered(span)
    ensures InOrder(Group(span, slot, splitCnt, rand))
  {
    GroupShape(span, slot, splitCnt, rand, w);
  }

  /** The intervals of a path of one table follow each other. */
  lemma {:induction false} PathSpans(p: seq<Node>, w: nat)
    requires Path(p) && OneTable(p, w)
    ensures Chain(Spans(p)) && Widths(Spans(p), w) && (InOrder(p) <==> AllOrdered(Spans(p)))
  {
    var ivs := Spans(p);
    forall i | 0 <= i < |p| - 1
      ensures ivs[i].upper.Some? && ivs[i + 1].lower == ivs[i].upper
    {
      PathAt(p, i);
    }
    assert forall i :: 0 <= i < |p| ==> ivs[i] == p[i].span;
  }

  /** A group turns back somewhere if its range does. */
  lemma {:induction false} GroupOrdered(span: Interval, slot: Slot, splitCnt: int, rand: Sampler, w: nat)
    requires GoodSampler(rand, w) && Width(span, w) && SlotOk(slot, splitCnt) && InOrder(Group(span, slot, splitCnt, rand))
    ensures Ordered(span)
  {
    var g := Group(span, slot, splitCnt, rand);
    GroupPath(span, slot, splitCnt, rand, w);
    GroupEnds(span, slot, splitCnt, rand, w);
    GroupOneTable(span, slot, splitCnt, rand, w);
    PathSpans(g, w);
    OuterOrdered(Spans(g), w);
  }

  lemma {:induction false} GroupOneTable(span: Interval, slot: Slot, splitCnt: int, rand: Sampler, w: nat)
    requires GoodSampler(rand, w) && Width(span, w) && SlotOk(slot, splitCnt)
    ensures OneTable(Group(span, slot, splitCnt, rand), w)
  {
    GroupShape(span, slot, splitCnt, rand, w);
  }

  // ---------- Where chunks close ----------

  /** The bounds at which the loop closes a chunk; the counts alone decide at which buckets. */
  function Closings(st: Stats, i: nat, latest: int): seq<Key>
    requires st.chunkSize > 0 && i <= |st.buckets|
    decreases |st.buckets| - i
  {
    if i == |st.buckets| then []
    else if st.buckets[i].count - latest < st.chunkSize then Closings(st, i + 1, latest)
    else if st.buckets[i].upper.None? then []
    else [st.buckets[i].upper.value] + Closings(st, i + 1, st.buckets[i].count)
  }

  /** Each bound is at or behind the one before, and the first at or behind `lower`. */
  predicate Rising(lower: Option<Key>, bounds: seq<Key>)
    decreases |bounds|
  {
    bounds == [] || (Ordered(Interval(lower, Some(bounds[0]))) && Rising(Some(bounds[0]), bounds[1..]))
  }

  /** The chunks of one bucket, and then those behind it. */
  lemma {:induction false} GroupThenInOrder(span: Interval, slot: Slot, splitCnt: int, rand: Sampler, w: nat, rest: seq<Node>)
    requires GoodSampler(rand, w) && Width(span, w) && SlotOk(slot, splitCnt)
    ensures InOrder(Group(span, slot, splitCnt, rand) + rest) <==> Ordered(span) && InOrder(rest)
  {
    var g := Group(span, slot, splitCnt, rand);
    if InOrder(g + rest) {
      InOrderBoth(g, rest);
      GroupOrdered(span, slot, splitCnt, rand, w);
    }
    if Ordered(span) && InOrder(rest) {
      GroupInOrder(span, slot, splitCnt, rand, w);
      InOrderAppend(g, rest);
    }
  }

  lemma {:induction false} BucketInOrder(st: Stats, rand: Sampler, i: nat, first: nat, latest: int, lower: Option<Key>)
    requires Setting(st, rand) && first <= i < |st.buckets| && (lower.Some? ==> |lower.value| == st.width)
    requires st.buckets[i].count - latest >= st.chunkSize && st.buckets[i].upper.Some?
    ensures InOrder(FromBuckets(st, rand, i, first, latest, lower).chunks) <==>
            Ordered(Interval(lower, st.buckets[i].upper))
            && InOrder(FromBuckets(st, rand, i + 1, i + 1, st.buckets[i].count, st.buckets[i].upper).chunks)
  {
    var chunkCnt := ChunkCnt(st.buckets[i].count - latest, st.chunkSize, i == first);
    ChunkCntPositive(st.buckets[i].count - latest, st.chunkSize, i == first);
    GroupThenInOrder(Interval(lower, st.buckets[i].upper), Slot(first, i, 0, chunkCnt), chunkCnt, rand, st.width,
                     FromBuckets(st, rand, i + 1, i + 1, st.buckets[i].count, st.buckets[i].upper).chunks);
  }

  lemma {:induction false} RisingFirst(lower: Option<Key>, bound: Key, more: seq<Key>)
    ensures Rising(lower, [bound] + more) <==> Ordered(Interval(lower, Some(bound))) && Rising(Some(bound), more)
  {
    assert ([bound] + more)[1..] == more;
  }

  /** No emitted chunk turns back if and only if the bounds at which chunks close never do. */
  lemma {:induction false} FromBucketsInOrder(st: Stats, rand: Sampler, i: nat, first: nat, latest: int, lower: Option<Key>)
    requires Setting(st, rand) && first <= i <= |st.buckets| && (lower.Some? ==> |lower.value| == st.width)
    ensures InOrder(FromBuckets(st, rand, i, first, latest, lower).chunks) <==> Rising(lower, Closings(st, i, latest))
    decreases |st.buckets| - i
  {
    if i == |st.buckets| {
      GroupInOrder(Interval(lower, None), Slot(first, i, 0, 1), 1, rand, st.width);
    } else if st.buckets[i].count - latest < st.chunkSize {
      FromBucketsInOrder(st, rand, i + 1, first, latest, lower);
    } else if st.buckets[i].upper.Some? {
      var b := st.buckets[i];
      BucketInOrder(st, rand, i, first, latest, lower);
      FromBucketsInOrder(st, rand, i + 1, i + 1, b.count, b.upper);
      RisingFirst(lower, b.upper.value, Closings(st, i + 1, b.count));
    }
  }

  /** No bucket from the `i`-th on ends before a lower bound. */
  predicate BoundBelow(st: Stats, lower: Option<Key>, i: nat) {
    forall j :: i <= j < |st.buckets| ==> Ordered(Interval(lower, st.buckets[j].upper))
  }

  lemma {:induction false} UpperBelow(st: Stats, i: nat)
    requires BucketWidths(st.buckets, st.width) && SortedBuckets(st) && i < |st.buckets| && st.buckets[i].upper.Some?
    ensures BoundBelow(st, st.buckets[i].upper, i + 1)
  {
  }

  /** With sorted bucket bounds they never do. */
  lemma {:induction false} SortedRise(st: Stats, i: nat, latest: int, lower: Option<Key>)
    requires st.chunkSize > 0 && BucketWidths(st.buckets, st.width) && SortedBuckets(st) && i <= |st.buckets| && BoundBelow(st, lower, i)
    ensures Rising(lower, Closings(st, i, latest))
    decreases |st.buckets| - i
  {
    if i < |st.buckets| {
      var b := st.buckets[i];
      if b.count - latest < st.chunkSize {
        SortedRise(st, i + 1, latest, lower);
      } else if b.upper.Some? {
        UpperBelow(st, i);
        SortedRise(st, i + 1, b.count, b.upper);
        RisingFirst(lower, b.upper.value, Closings(st, i + 1, b.count));
      }
    }
  }

  /** A resumed run does not turn back either. */
  lemma {:induction false} ResumeBucketsInOrder(st: Stats, rand: Sampler, saved: Node)
    requires Setting(st, rand) && SortedBuckets(st) && Saved(saved, st)
    ensures InOrder(ResumeBuckets(st, rand, saved).chunks)
  {
    var right := saved.id.right;
    UpperBelow(st, right);
    SortedRise(st, right + 1, st.buckets[right].count, st.buckets[right].upper);
    FromBucketsInOrder(st, rand, right + 1, right + 1, st.buckets[right].count, st.buckets[right].upper);
    LeftGroupInOrder(st, rand, saved);
    InOrderAppend(LeftGroup(st, rand, saved), FromBuckets(st, rand, right + 1, right + 1, st.buckets[right].count, st.buckets[right].upper).chunks);
  }

  lemma {:induction false} LeftGroupInOrder(st: Stats, rand: Sampler, saved: Node)
    requires Setting(st, rand) && Saved(saved, st)
    ensures InOrder(LeftGroup(st, rand, saved))
  {
    if saved.id.index < saved.id.count - 1 {
      GroupInOrder(Interval(saved.span.upper, st.buckets[saved.id.right].upper),
                   Slot(saved.id.left, saved.id.right, saved.id.index + 1, saved.id.count),
                   saved.id.count - saved.id.index - 1, rand, st.width);
    }
  }

  // ---------- The random producer ----------

  /** Wanted rows per chunk when the configuration fixes none. */
  function CalculateChunkSize(rowCount: int): int {
    if rowCount > 50000 * 10000 then rowCount / 10000 else 50000
  }

  function RandomChunkSize(configured: int, hasIndex: bool, rows: nat): (size: int)
    ensures size > 0
  {
    if configured > 0 then configured else if hasIndex then CalculateChunkSize(rows) else rows + 1
  }

  /** Rounded up; zero for an empty table. */
  function RandomChunkCnt(rows: nat, chunkSize: int): int
    requires chunkSize > 0
  {
    (rows + chunkSize - 1) / chunkSize
  }

  function FromRandom(chunkCnt: int, rand: Sampler): seq<Node> {
    Group(Interval(None, None), Slot(0, 0, 0, chunkCnt), chunkCnt, rand)
  }

  function ResumeRandom(saved: Node, rand: Sampler): seq<Node> {
    if LastOfTable(saved) then []
    else Group(Interval(saved.span.upper, None), Slot(0, 0, saved.id.index + 1, saved.id.count), saved.id.count - (saved.id.index + 1), rand)
  }

  /** A saved chunk from which the random producer can go on: it was not the last one asked for. */
  predicate RandomResumable(c: Node, width: nat) {
    && c.id.table == 0 && c.id.left == 0 && c.id.right == 0 && 0 <= c.id.index < c.id.count - 1
    && c.span.upper.Some? && |c.span.upper.value| == width && !c.isFirst && !c.isLast
  }

  predicate EmitsRandom(chunks: seq<Node>, width: nat) {
    && Path(chunks) && chunks != [] && LastOfTable(chunks[|chunks| - 1])
    && OneTable(chunks, width) && InOrder(chunks)
    && (forall i :: 0 <= i < |chunks| ==> LastOfTable(chunks[i]) || RandomResumable(chunks[i], width))
  }

  /** The last chunk of such a group is open above; each other one has an upper end of full width. */
  lemma {:induction false} RandomEach(lower: Option<Key>, index: nat, count: int, rand: Sampler, width: nat, k: nat)
    requires GoodSampler(rand, width) && (lower.Some? ==> |lower.value| == width)
    requires index + (if count - index > 1 then count - index else 1) <= (if count > 1 then count else 1)
    requires k < |Group(Interval(lower, None), Slot(0, 0, index, count), count - index, rand)|
    ensures var c := Group(Interval(lower, None), Slot(0, 0, index, count), count - index, rand)[k];
            LastOfTable(c) || RandomResumable(c, width)
  {
    GroupShape(Interval(lower, None), Slot(0, 0, index, count), count - index, rand, width);
    var g := Group(Interval(lower, None), Slot(0, 0, index, count), count - index, rand);
    if k < |g| - 1 {
      assert Width(g[k].span, width);
    }
  }

  lemma {:induction false} RandomAll(lower: Option<Key>, index: nat, count: int, rand: Sampler, width: nat, g: seq<Node>)
    requires GoodSampler(rand, width) && (lower.Some? ==> |lower.value| == width)
    requires index + (if count - index > 1 then count - index else 1) <= (if count > 1 then count else 1)
    requires g == Group(Interval(lower, None), Slot(0, 0, index, count), count - index, rand)
    ensures forall k :: 0 <= k < |g| ==> LastOfTable(g[k]) || RandomResumable(g[k], width)
  {
    forall k | 0 <= k < |g|
      ensures LastOfTable(g[k]) || RandomResumable(g[k], width)
    {
      RandomEach(lower, index, count, rand, width, k);
    }
  }

  /** One group from a given start to the end of the table. */
  lemma {:induction false} RandomGroup(lower: Option<Key>, index: nat, count: int, rand: Sampler, width: nat, g: seq<Node>)
    requires GoodSampler(rand, width) && (lower.Some? ==> |lower.value| == width)
    requires index + (if count - index > 1 then count - index else 1) <= (if count > 1 then count else 1)
    requires g == Group(Interval(lower, None), Slot(0, 0, index, count), count - index, rand)
    ensures EmitsRandom(g, width) && g[0].span.lower == lower
  {
    RandomShape(Interval(lower, None), Slot(0, 0, index, count), count - index, rand, width, g);
    RandomAll(lower, index, count, rand, width, g);
  }

  lemma {:induction false} RandomShape(span: Interval, slot: Slot, splitCnt: int, rand: Sampler, w: nat, g: seq<Node>)
    requires GoodSampler(rand, w) && Width(span, w) && SlotOk(slot, splitCnt) && span.upper.None?
    requires g == Group(span, slot, splitCnt, rand)
    ensures Path(g) && g != [] && LastOfTable(g[|g| - 1]) && OneTable(g, w) && InOrder(g) && g[0].span.lower == span.lower
  {
    GroupPath(span, slot, splitCnt, rand, w);
    GroupEnds(span, slot, splitCnt, rand, w);
    GroupOneTable(span, slot, splitCnt, rand, w);
    GroupInOrder(span, slot, splitCnt, rand, w);
  }

  /** The random producer emits a path of the whole table; each chunk but the last can be resumed from. */
  lemma {:induction false} FromRandomEmits(chunkCnt: nat, rand: Sampler, width: nat)
    requires GoodSampler(rand, width)
    ensures EmitsRandom(FromRandom(chunkCnt, rand), width) && FirstOfTable(FromRandom(chunkCnt, rand)[0])
  {
    RandomGroup(None, 0, chunkCnt, rand, width, FromRandom(chunkCnt, rand));
  }

  /** Started again from a saved chunk, the random producer goes on to the end of the table. */
  lemma {:induction false} ResumeRandomEmits(saved: Node, rand: Sampler, width: nat)
    requires GoodSampler(rand, width) && RandomResumable(saved, width)
    ensures EmitsRandom(ResumeRandom(saved, rand), width)
    ensures ResumeRandom(saved, rand)[0].span.lower == saved.span.upper
  {
    RandomGroup(saved.span.upper, saved.id.index + 1, saved.id.count, rand, width, ResumeRandom(saved, rand));
  }

  /** And its first chunk comes right after the saved one. */
  lemma {:induction false} ResumeRandomContinues(saved: Node, rand: Sampler, width: nat)
    requires GoodSampler(rand, width) && RandomResumable(saved, width)
    ensures Path([saved] + ResumeRandom(saved, rand))
  {
    ResumeRandomEmits(saved, rand, width);
    RandomFollows(saved, ResumeRandom(saved, rand), width);
  }

  lemma {:induction false} RandomFollows(saved: Node, more: seq<Node>, width: nat)
    requires RandomResumable(saved, width) && Path(more) && more != []
    requires more[0].id == ChunkID(0, 0, 0, saved.id.index + 1, saved.id.count) && more[0].span.lower == saved.span.upper
    ensures Path([saved] + more)
  {
    PathAppend([saved], more);
  }

  // ---------- What the runs of one table cover ----------

  function Spans(p: seq<Node>): seq<Interval> {
    seq(|p|, i requires 0 <= i < |p| => p[i].span)
  }

  predicate OneTable(p: seq<Node>, width: nat) {
    forall i :: 0 <= i < |p| ==> p[i].id.table == 0 && Width(p[i].span, width)
  }

  /** The nodes of one table, from its first to its last, form a chain open at both ends. */
  lemma {:induction false} PathIsChain(p: seq<Node>, width: nat)
    requires Path(p) && p != [] && FirstOfTable(p[0]) && LastOfTable(p[|p| - 1]) && OneTable(p, width)
    ensures Chain(Spans(p)) && Widths(Spans(p), width) && Outer(Spans(p)) == Interval(None, None)
  {
    PathSpans(p, width);
    PathAt(p, 0);
    PathAt(p, |p| - 1);
  }

  /**
   * From scratch, whatever the statistics: every row without NULL is in some chunk, and every such row is in
   * exactly one if and only if the bucket bounds at which chunks close never go back.  Sorted bucket bounds do not.
   */
  lemma {:induction false} BucketsCover(st: Stats, rand: Sampler)
    requires Setting(st, rand) && !FromBuckets(st, rand, 0, 0, 0, None).failed
    ensures var ivs := Spans(FromBuckets(st, rand, 0, 0, 0, None).chunks);
            && ivs != [] && Widths(ivs, st.width)
            && (forall row: RowKey | |row| == st.width && NonNull(row) :: Hits(ivs, row) >= 1)
            && (Rising(None, Closings(st, 0, 0)) <==> forall row: RowKey | |row| == st.width && NonNull(row) :: Hits(ivs, row) == 1)
    ensures SortedBuckets(st) ==> Rising(None, Closings(st, 0, 0))
  {
    var p := FromBuckets(st, rand, 0, 0, 0, None).chunks;
    BucketsChain(st, rand);
    forall row: RowKey | |row| == st.width && NonNull(row)
      ensures Hits(Spans(p), row) >= 1
    {
      ChainReaches(Spans(p), row);
    }
    OnceIffOrdered(Spans(p), st.width);
    if SortedBuckets(st) {
      SortedRise(st, 0, 0, None);
    }
  }

  lemma {:induction false} BucketsChain(st: Stats, rand: Sampler)
    requires Setting(st, rand) && !FromBuckets(st, rand, 0, 0, 0, None).failed
    ensures var ivs := Spans(FromBuckets(st, rand, 0, 0, 0, None).chunks);
            && ivs != [] && Widths(ivs, st.width) && Chain(ivs) && Outer(ivs) == Interval(None, None)
            && (AllOrdered(ivs) <==> Rising(None, Closings(st, 0, 0)))
  {
    var run := FromBuckets(st, rand, 0, 0, 0, None);
    FromBucketsEmits(st, rand, 0, 0, 0, None);
    EmitsOneTable(run, st);
    PathIsChain(run.chunks, st.width);
    PathSpans(run.chunks, st.width);
    FromBucketsInOrder(st, rand, 0, 0, 0, None);
  }

  /** A row with a NULL is in no chunk as soon as some chunk end agrees with it up to that NULL, else in exactly one. */
  lemma {:induction false} BucketsAndNull(st: Stats, rand: Sampler, row: RowKey)
    requires Setting(st, rand) && Rising(None, Closings(st, 0, 0)) && !FromBuckets(st, rand, 0, 0, 0, None).failed && |row| == st.width
    ensures var ivs := Spans(FromBuckets(st, rand, 0, 0, 0, None).chunks);
            Widths(ivs, |row|) && Hits(ivs, row) == if Decided(ivs, row) then 1 else 0
  {
    BucketsChain(st, rand);
    ChainSelects(Spans(FromBuckets(st, rand, 0, 0, 0, None).chunks), row);
  }

  /** What was done up to a saved chunk, and what a resumed run adds. */
  lemma {:induction false} ResumedCovers(done: seq<Node>, more: seq<Node>, width: nat)
    requires done != [] && Path(done) && FirstOfTable(done[0]) && OneTable(done, width)
    requires more != [] && Path([done[|done| - 1]] + more) && LastOfTable(more[|more| - 1]) && OneTable(more, width)
    ensures Path(done + more)
    ensures var ivs := Spans(done + more);
            && Chain(ivs) && Widths(ivs, width) && Outer(ivs) == Interval(None, None)
            && (InOrder(done) && InOrder(more) ==> AllOrdered(ivs))
  {
    JoinSaved(done, more);
    PathIsChain(done + more, width);
  }

  /** The chunks done up to a saved one, over all runs so far. */
  predicate History(done: seq<Node>, st: Stats) {
    && done != [] && Path(done) && FirstOfTable(done[0]) && OneTable(done, st.width) && InOrder(done)
    && Saved(done[|done| - 1], st)
  }

  /** The first chunks of a run, up to one from which it can be resumed. */
  lemma {:induction false} TakenOk(run: Run, st: Stats, k: nat)
    requires Emits(run, st) && InOrder(run.chunks) && k < |run.chunks| && !LastOfTable(run.chunks[k])
    ensures var taken := run.chunks[..k + 1];
            Path(taken) && OneTable(taken, st.width) && InOrder(taken) && Saved(run.chunks[k], st)
  {
    var p := run.chunks;
    PathSlice(p, 0, k + 1);
    assert p[0..k + 1] == p[..k + 1];
    EmitsOneTable(run, st);
    assert p[k] in p;
  }

  /** A fresh run stopped at any chunk but the last leaves a history. */
  lemma {:induction false} FreshHistory(st: Stats, rand: Sampler, k: nat)
    requires Setting(st, rand) && SortedBuckets(st)
    requires var run := FromBuckets(st, rand, 0, 0, 0, None); k < |run.chunks| && !LastOfTable(run.chunks[k])
    ensures History(FromBuckets(st, rand, 0, 0, 0, None).chunks[..k + 1], st)
  {
    FromBucketsEmits(st, rand, 0, 0, 0, None);
    SortedRise(st, 0, 0, None);
    FromBucketsInOrder(st, rand, 0, 0, 0, None);
    TakenOk(FromBuckets(st, rand, 0, 0, 0, None), st, k);
  }

  /** So does a resumed run stopped at any chunk but the last, put behind the history it was resumed from. */
  lemma {:induction false} ResumedHistory(st: Stats, rand: Sampler, done: seq<Node>, k: nat)
    requires Setting(st, rand) && SortedBuckets(st) && History(done, st)
    requires var run := ResumeBuckets(st, rand, done[|done| - 1]); k < |run.chunks| && !LastOfTable(run.chunks[k])
    ensures History(done + ResumeBuckets(st, rand, done[|done| - 1]).chunks[..k + 1], st)
  {
    var saved := done[|done| - 1];
    var run := ResumeBuckets(st, rand, saved);
    ResumeBucketsContinues(st, rand, saved);
    ResumeBucketsInOrder(st, rand, saved);
    TakenOk(run, st, k);
    HistoryGrows(done, run.chunks, k, st);
  }

  lemma {:induction false} HistoryGrows(done: seq<Node>, more: seq<Node>, k: nat, st: Stats)
    requires History(done, st) && Path([done[|done| - 1]] + more) && k < |more|
    requires OneTable(more[..k + 1], st.width) && InOrder(more[..k + 1]) && Saved(more[k], st)
    ensures History(done + more[..k + 1], st)
  {
    JoinSaved(done, more);
    PathSlice(done + more, 0, |done| + k + 1);
    assert (done + more)[0..|done| + k + 1] == done + more[..k + 1];
  }

  lemma {:induction false} JoinSaved(done: seq<Node>, more: seq<Node>)
    requires done != [] && Path(done) && Path([done[|done| - 1]] + more)
    ensures Path(done + more)
  {
    var joined := [done[|done| - 1]] + more;
    PathAt(joined, 0);
    assert joined[1..] == more;
    PathAppend(done, more);
  }

  /**
   * Crash and resume with unchanged statistics: whatever was done up to the saved chunk, through any number of
   * earlier resumed runs and with other sampled keys each time, that and the resumed run's chunks together
   * select every row without NULL exactly once.
   */
  lemma {:induction false} BucketsCrashResume(st: Stats, rand: Sampler, done: seq<Node>, row: RowKey)
    requires Setting(st, rand) && SortedBuckets(st) && History(done, st)
    requires !ResumeBuckets(st, rand, done[|done| - 1]).failed
    requires |row| == st.width && NonNull(row)
    ensures var all := done + ResumeBuckets(st, rand, done[|done| - 1]).chunks;
            Path(all) && Widths(Spans(all), |row|) && Hits(Spans(all), row) == 1
  {
    var saved := done[|done| - 1];
    var more := ResumeBuckets(st, rand, saved).chunks;
    ResumeBucketsContinues(st, rand, saved);
    ResumeBucketsInOrder(st, rand, saved);
    EmitsOneTable(ResumeBuckets(st, rand, saved), st);
    ResumedCovers(done, more, st.width);
    WholeChainOnce(Spans(done + more), row);
  }

  lemma {:induction false} RandomCrashResume(rand: Sampler, done: seq<Node>, row: RowKey)
    requires GoodSampler(rand, |row|)
    requires done != [] && Path(done) && FirstOfTable(done[0]) && OneTable(done, |row|) && InOrder(done)
    requires RandomResumable(done[|done| - 1], |row|)
    requires NonNull(row)
    ensures var all := done + ResumeRandom(done[|done| - 1], rand);
            Path(all) && Widths(Spans(all), |row|) && Hits(Spans(all), row) == 1
  {
    var saved := done[|done| - 1];
    var more := ResumeRandom(saved, rand);
    ResumeRandomEmits(saved, rand, |row|);
    ResumeRandomContinues(saved, rand, |row|);
    ResumedCovers(done, more, |row|);
    WholeChainOnce(Spans(done + more), row);
  }
}
