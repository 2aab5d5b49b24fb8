/**
 * The chunks that the iterators (sync_diff_inspector/source/chunks_iter.go) give over a whole comparison: how each table
 * is split, what one run emits from the start or behind a saved chunk, and histories of runs that were cut off anywhere,
 * each with sampled keys of its own.
 */
module Histories {
  import opened Sequences
  import opened Wrappers
  import opened Keys
  import opened Cover
  import opened Nodes
  import opened Producers
  import opened ChunksIter
  import Text

  /** How the chunks of a table are made: none, from its histogram, or from sampled keys. */
  datatype Origin = NotCompared | Histogram(st: Stats) | Sample(chunkCnt: nat, width: nat)

  /** The sampling queries of one run, table by table. */
  type Samplers = nat -> Sampler

  /** Readable bucket bounds, and counts that fit the program's integers. */
  predicate OriginOk(o: Origin) {
    match o
    case NotCompared => true
    case Histogram(st) =>
      && st.chunkSize > 0 && BucketWidths(st.buckets, st.width) && |st.buckets| <= Text.MAX_INT
      && forall i :: 0 <= i < |st.buckets| ==> st.buckets[i].upper.Some? && 0 <= st.buckets[i].count <= Text.MAX_INT
    case Sample(chunkCnt, _) => chunkCnt <= Text.MAX_INT
  }

  predicate AllOk(origins: seq<Origin>) {
    |origins| <= Text.MAX_INT && forall t :: 0 <= t < |origins| ==> OriginOk(origins[t])
  }

  ghost predicate GoodSamplers(origins: seq<Origin>, rand: Samplers) {
    forall t: nat :: t < |origins| && !origins[t].NotCompared? ==> GoodSampler(rand(t), WidthOf(origins[t]))
  }

  function WidthOf(o: Origin): nat
    requires !o.NotCompared?
  {
    if o.Histogram? then o.st.width else o.width
  }

  /** What a fresh splitter gives for a table. */
  function SourceOf(o: Origin, rand: Sampler): Source
    requires OriginOk(o)
  {
    match o
    case NotCompared => Skipped
    case Histogram(st) => Split(FromBuckets(st, rand, 0, 0, 0, None).chunks)
    case Sample(chunkCnt, _) => Split(FromRandom(chunkCnt, rand))
  }

  function SourcesOf(origins: seq<Origin>, rand: Samplers): (r: seq<Source>)
    requires AllOk(origins)
    ensures |r| == |origins|
  {
    seq(|origins|, t requires 0 <= t < |origins| => SourceOf(origins[t], rand(t)))
  }

  /** The same chunk as the splitter of its table numbers it. */
  function Own(c: Node): Node { c.(id := c.id.(table := 0)) }

  /** What is left of the saved chunk's table. */
  function RestOf(o: Origin, rand: Sampler, saved: Node): seq<Node>
    requires OriginOk(o) && (o.Histogram? && !LastOfTable(saved) ==> saved.id.right >= 0)
  {
    match o
    case NotCompared => []
    case Histogram(st) => ResumeBuckets(st, rand, Own(saved)).chunks
    case Sample(_, _) => ResumeRandom(Own(saved), rand)
  }

  // ---------- What the producers emit ----------

  /** Bucket indexes up to a limit, and a count that fits. */
  predicate Small(c: Node, limit: nat) {
    0 <= c.id.left <= c.id.right <= limit && 0 <= c.id.count <= Text.MAX_INT
  }

  /** A chunk that the splitter of a table can emit, numbered as it numbers it. */
  predicate Fits(o: Origin, c: Node)
    requires OriginOk(o)
  {
    match o
    case NotCompared => c == EmptyChunk(0)
    case Histogram(st) => Sound(c, st) && Small(c, |st.buckets|) && (SortedBuckets(st) ==> Ordered(c.span))
    case Sample(_, width) => (LastOfTable(c) || RandomResumable(c, width)) && Width(c.span, width) && Small(c, 0) && Ordered(c.span)
  }

  predicate AllFit(o: Origin, chunks: seq<Node>)
    requires OriginOk(o)
  {
    forall i :: 0 <= i < |chunks| ==> chunks[i].id.table == 0 && Fits(o, chunks[i])
  }

  lemma {:induction false} ChunkCntSmall(count: int, chunkSize: int, single: bool)
    requires 0 < chunkSize <= count
    ensures 1 <= ChunkCnt(count, chunkSize, single) <= count
  {
    ChunkCntPositive(count, chunkSize, single);
    if single {
      RoundedSmall(count, chunkSize);
    }
  }

  lemma {:induction false} Times(b: nat, c: int, d: int)
    requires c <= d
    ensures b * c <= b * d
  {
    assert b * (d - c) >= 0;
  }

  lemma {:induction false} DivBelow(a: int, b: int, c: int)
    requires b > 0 && a < b * c
    ensures a / b < c
  {
    if a / b >= c {
      Times(b, c, a / b);
    }
  }

  lemma {:induction false} RoundedSmall(count: int, chunkSize: int)
    requires 0 < chunkSize <= count
    ensures (count + chunkSize / 2) / chunkSize <= count
  {
    var a := count + chunkSize / 2;
    if chunkSize > 1 {
      Times(count + 1, 2, chunkSize);
      assert a < (count + 1) * 2;
      DivBelow(a, chunkSize, count + 1);
    } else {
      assert a / 1 == count;
    }
  }

  lemma {:induction false} GroupSmall(span: Interval, slot: Slot, splitCnt: int, rand: Sampler, limit: nat)
    requires 0 <= slot.left <= slot.right <= limit && 0 <= slot.count <= Text.MAX_INT
    ensures forall c :: c in Group(span, slot, splitCnt, rand) ==> Small(c, limit)
  {
  }

  lemma {:induction false} BucketsSmall(st: Stats, rand: Sampler, i: nat, first: int, latest: int, lower: Option<Key>)
    requires OriginOk(Histogram(st)) && 0 <= first <= i <= |st.buckets| && 0 <= latest
    ensures forall c :: c in FromBuckets(st, rand, i, first, latest, lower).chunks ==> Small(c, |st.buckets|)
    decreases |st.buckets| - i
  {
    if i == |st.buckets| {
      GroupSmall(Interval(lower, None), Slot(first, i, 0, 1), 1, rand, |st.buckets|);
    } else if st.buckets[i].count - latest < st.chunkSize {
      BucketsSmall(st, rand, i + 1, first, latest, lower);
    } else {
      var b := st.buckets[i];
      var chunkCnt := ChunkCnt(b.count - latest, st.chunkSize, i == first);
      ChunkCntSmall(b.count - latest, st.chunkSize, i == first);
      GroupSmall(Interval(lower, b.upper), Slot(first, i, 0, chunkCnt), chunkCnt, rand, |st.buckets|);
      BucketsSmall(st, rand, i + 1, i + 1, b.count, b.upper);
    }
  }

  lemma {:induction false} ResumedSmall(st: Stats, rand: Sampler, saved: Node)
    requires OriginOk(Histogram(st)) && Saved(saved, st) && Small(saved, |st.buckets|)
    ensures forall c :: c in ResumeBuckets(st, rand, saved).chunks ==> Small(c, |st.buckets|)
  {
    var right := saved.id.right;
    BucketsSmall(st, rand, right + 1, right + 1, st.buckets[right].count, st.buckets[right].upper);
    if saved.id.count - saved.id.index - 1 > 0 {
      GroupSmall(Interval(saved.span.upper, st.buckets[right].upper),
                 Slot(saved.id.left, right, saved.id.index + 1, saved.id.count), saved.id.count - saved.id.index - 1, rand, |st.buckets|);
    }
  }

  /** With readable bounds the bucket producer does not stop on an error. */
  lemma {:induction false} NoFailure(st: Stats, rand: Sampler, i: nat, first: int, latest: int, lower: Option<Key>)
    requires OriginOk(Histogram(st)) && i <= |st.buckets|
    ensures !FromBuckets(st, rand, i, first, latest, lower).failed
  {
    FromBucketsFails(st, rand, i, first, latest, lower);
  }

  lemma {:induction false} EmittedFit(st: Stats, run: Run)
    requires OriginOk(Histogram(st)) && Emits(run, st) && (SortedBuckets(st) ==> InOrder(run.chunks))
    requires forall c :: c in run.chunks ==> Small(c, |st.buckets|)
    ensures AllFit(Histogram(st), run.chunks)
  {
    forall i | 0 <= i < |run.chunks|
      ensures run.chunks[i].id.table == 0 && Fits(Histogram(st), run.chunks[i])
    {
      assert run.chunks[i] in run.chunks;
    }
  }

  lemma {:induction false} FreshHistogram(st: Stats, rand: Sampler)
    requires OriginOk(Histogram(st)) && GoodSampler(rand, st.width)
    ensures AllFit(Histogram(st), FromBuckets(st, rand, 0, 0, 0, None).chunks)
    ensures Whole(Split(FromBuckets(st, rand, 0, 0, 0, None).chunks))
  {
    FromBucketsEmits(st, rand, 0, 0, 0, None);
    BucketsSmall(st, rand, 0, 0, 0, None);
    if SortedBuckets(st) {
      SortedRise(st, 0, 0, None);
      FromBucketsInOrder(st, rand, 0, 0, 0, None);
    }
    EmittedFit(st, FromBuckets(st, rand, 0, 0, 0, None));
    NoFailure(st, rand, 0, 0, 0, None);
    FreshWhole(st, rand, 0);
  }

  lemma {:induction false} RandomFit(o: Origin, chunks: seq<Node>)
    requires o.Sample? && EmitsRandom(chunks, o.width) && forall c :: c in chunks ==> Small(c, 0)
    requires OriginOk(o)
    ensures AllFit(o, chunks)
  {
    forall i | 0 <= i < |chunks|
      ensures chunks[i].id.table == 0 && Fits(o, chunks[i])
    {
      assert chunks[i] in chunks;
    }
  }

  lemma {:induction false} FreshSample(o: Origin, rand: Sampler)
    requires o.Sample? && OriginOk(o) && GoodSampler(rand, o.width)
    ensures AllFit(o, FromRandom(o.chunkCnt, rand)) && Whole(Split(FromRandom(o.chunkCnt, rand)))
  {
    FromRandomEmits(o.chunkCnt, rand, o.width);
    GroupSmall(Interval(None, None), Slot(0, 0, 0, o.chunkCnt), o.chunkCnt, rand, 0);
    RandomFit(o, FromRandom(o.chunkCnt, rand));
    RandomLefts(FromRandom(o.chunkCnt, rand), o.width);
  }

  /** A whole table of chunks that its splitter can emit. */
  predicate GoodSource(o: Origin, s: Source)
    requires OriginOk(o)
  {
    Whole(s) && (s.Skipped? <==> o.NotCompared?) && (s.Split? ==> AllFit(o, s.chunks))
  }

  /** A fresh splitter emits one. */
  lemma {:induction false} FreshTable(o: Origin, rand: Sampler)
    requires OriginOk(o) && (!o.NotCompared? ==> GoodSampler(rand, WidthOf(o)))
    ensures GoodSource(o, SourceOf(o, rand))
  {
    match o
    case NotCompared =>
    case Histogram(st) => FreshHistogram(st, rand);
    case Sample(_, _) => FreshSample(o, rand);
  }

  /** A resumed splitter emits the rest of the table behind the saved chunk. */
  lemma {:induction false} RestTable(o: Origin, rand: Sampler, saved: Node)
    requires OriginOk(o) && !o.NotCompared? && GoodSampler(rand, WidthOf(o)) && saved.id.table == 0 && Fits(o, saved) && WellFormed(saved)
    ensures var rest := RestOf(o, rand, saved);
            && Path([saved] + rest) && AllFit(o, rest) && LastOfTable(if rest == [] then saved else rest[|rest| - 1])
  {
    if LastOfTable(saved) {
      assert RestOf(o, rand, saved) == [];
    } else if o.Histogram? {
      RestHistogram(o.st, rand, saved);
    } else {
      RestSample(o, rand, saved);
    }
  }

  lemma {:induction false} ResumedNoFailure(st: Stats, rand: Sampler, saved: Node)
    requires OriginOk(Histogram(st)) && Saved(saved, st)
    ensures !ResumeBuckets(st, rand, saved).failed
  {
    var right := saved.id.right;
    NoFailure(st, rand, right + 1, right + 1, st.buckets[right].count, st.buckets[right].upper);
  }

  lemma {:induction false} RestHistogram(st: Stats, rand: Sampler, saved: Node)
    requires OriginOk(Histogram(st)) && GoodSampler(rand, st.width) && Fits(Histogram(st), saved) && !LastOfTable(saved)
    ensures var rest := ResumeBuckets(st, rand, saved).chunks;
            && Path([saved] + rest) && AllFit(Histogram(st), rest) && rest != [] && LastOfTable(rest[|rest| - 1])
  {
    ResumeBucketsContinues(st, rand, saved);
    ResumedSmall(st, rand, saved);
    ResumedNoFailure(st, rand, saved);
    if SortedBuckets(st) {
      ResumeBucketsInOrder(st, rand, saved);
    }
    EmittedFit(st, ResumeBuckets(st, rand, saved));
  }

  lemma {:induction false} RestSample(o: Origin, rand: Sampler, saved: Node)
    requires o.Sample? && OriginOk(o) && GoodSampler(rand, o.width) && Fits(o, saved) && !LastOfTable(saved)
    ensures var rest := ResumeRandom(saved, rand);
            && Path([saved] + rest) && AllFit(o, rest) && rest != [] && LastOfTable(rest[|rest| - 1])
  {
    ResumeRandomEmits(saved, rand, o.width);
    ResumeRandomContinues(saved, rand, o.width);
    GroupSmall(Interval(saved.span.upper, None), Slot(0, 0, saved.id.index + 1, saved.id.count), saved.id.count - (saved.id.index + 1), rand, 0);
    RandomFit(o, ResumeRandom(saved, rand));
  }

  // ---------- Plans ----------

  /** Chunks of the tables that they are numbered for. */
  predicate Planned(origins: seq<Origin>, nodes: seq<Node>)
    requires AllOk(origins)
  {
    forall i :: 0 <= i < |nodes| ==> 0 <= nodes[i].id.table < |origins| && Fits(origins[nodes[i].id.table], Own(nodes[i]))
  }

  lemma {:induction false} PlannedAppend(origins: seq<Origin>, a: seq<Node>, b: seq<Node>)
    requires AllOk(origins) && Planned(origins, a) && Planned(origins, b)
    ensures Planned(origins, a + b)
  {
  }

  lemma {:induction false} PlannedPlaced(origins: seq<Origin>, chunks: seq<Node>, t: nat)
    requires AllOk(origins) && t < |origins| && AllFit(origins[t], chunks)
    ensures Planned(origins, Placed(chunks, t))
  {
    forall i | 0 <= i < |chunks|
      ensures Fits(origins[t], Own(Placed(chunks, t)[i]))
    {
      assert Own(Placed(chunks, t)[i]) == chunks[i];
    }
  }

  lemma {:induction false} PlannedSource(origins: seq<Origin>, s: Source, t: nat)
    requires AllOk(origins) && t < |origins| && GoodSource(origins[t], s)
    ensures Planned(origins, OfSource(s, t))
  {
    if s.Split? {
      PlannedPlaced(origins, s.chunks, t);
    }
  }

  ghost predicate GoodSources(origins: seq<Origin>, sources: seq<Source>)
    requires AllOk(origins)
  {
    |sources| == |origins| && forall t: nat :: t < |sources| ==> GoodSource(origins[t], sources[t])
  }

  lemma {:induction false} PlannedFrom(origins: seq<Origin>, sources: seq<Source>, t: nat)
    requires AllOk(origins) && GoodSources(origins, sources) && t <= |sources|
    ensures Planned(origins, Plan(sources, t))
    decreases |sources| - t
  {
    if t < |sources| {
      PlannedFrom(origins, sources, t + 1);
      PlannedNext(origins, sources[t], t, Plan(sources, t + 1));
    }
  }

  lemma {:induction false} PlannedNext(origins: seq<Origin>, s: Source, t: nat, rest: seq<Node>)
    requires AllOk(origins) && t < |origins| && GoodSource(origins[t], s) && Planned(origins, rest)
    ensures Planned(origins, OfSource(s, t) + rest)
  {
    PlannedSource(origins, s, t);
    PlannedAppend(origins, OfSource(s, t), rest);
  }

  lemma {:induction false} AllWhole(origins: seq<Origin>, rand: Samplers)
    requires AllOk(origins) && GoodSamplers(origins, rand)
    ensures GoodSources(origins, SourcesOf(origins, rand))
  {
    forall t: nat | t < |origins|
      ensures GoodSource(origins[t], SourcesOf(origins, rand)[t])
    {
      FreshTable(origins[t], rand(t));
    }
  }

  /** Up to the end of the last table. */
  predicate Ends(nodes: seq<Node>, tables: nat) {
    nodes != [] && LastOfTable(nodes[|nodes| - 1]) && nodes[|nodes| - 1].id.table == tables - 1
  }

  lemma {:induction false} PlanEnds(tables: seq<Source>, t: nat, prev: seq<Node>)
    requires t <= |tables| && (forall i :: t <= i < |tables| ==> Whole(tables[i])) && Ends(prev, t)
    ensures Ends(prev + Plan(tables, t), |tables|)
    decreases |tables| - t
  {
    if t < |tables| {
      SourcePath(tables[t], t);
      PlanEnds(tables, t + 1, prev + OfSource(tables[t], t));
      Associate(prev, OfSource(tables[t], t), Plan(tables, t + 1));
    } else {
      assert prev + [] == prev;
    }
  }

  /** What a run emits that goes on behind a node: behind the saved chunk, or from the first table. */
  function Onward(origins: seq<Origin>, rand: Samplers, from: Node): seq<Node>
    requires AllOk(origins) && (from != INIT_NODE ==> Planned(origins, [from]))
  {
    if from == INIT_NODE then RunPlan(SourcesOf(origins, rand), None, false, [])
    else
      assert [from][0] == from;
      var o := origins[from.id.table];
      RunPlan(SourcesOf(origins, rand), Some(from), o.NotCompared?, RestOf(o, rand(from.id.table), from))
  }

  /** The nodes of a history: those before the first table, and then chunks of the tables. */
  predicate Produced(origins: seq<Origin>, nodes: seq<Node>)
    requires AllOk(origins)
  {
    nodes != [] && nodes[0] == INIT_NODE && Path(nodes) && Planned(origins, nodes[1..])
  }

  lemma {:induction false} ProducedPrefix(origins: seq<Origin>, nodes: seq<Node>, at: nat)
    requires AllOk(origins) && Produced(origins, nodes) && at < |nodes|
    ensures Produced(origins, nodes[..at + 1])
    ensures at > 0 ==> nodes[at] != INIT_NODE && Planned(origins, [nodes[at]]) && WellFormed(nodes[at])
  {
    PathSlice(nodes, 0, at + 1);
    assert nodes[0..at + 1] == nodes[..at + 1];
    PathAt(nodes, at);
    if at > 0 {
      assert nodes[1..][at - 1] == nodes[at];
      assert nodes[..at + 1][1..] == nodes[1..][..at];
    }
  }

  lemma {:induction false} ProducedJoin(origins: seq<Origin>, done: seq<Node>, more: seq<Node>)
    requires AllOk(origins) && Produced(origins, done) && Path([done[|done| - 1]] + more) && Planned(origins, more)
    ensures Produced(origins, done + more)
  {
    JoinSaved(done, more);
    assert (done + more)[1..] == done[1..] + more;
    PlannedAppend(origins, done[1..], more);
  }

  /** Planned chunks that go on behind a path, to the end of the last table. */
  predicate Behind(origins: seq<Origin>, prev: seq<Node>, more: seq<Node>)
    requires AllOk(origins)
  {
    Path(prev + more) && Planned(origins, more) && Ends(prev + more, |origins|)
  }

  /** The tables from `t` on, behind a path to the end of the table before them. */
  lemma {:induction false} PlanBehind(origins: seq<Origin>, sources: seq<Source>, t: nat, prev: seq<Node>, plan: seq<Node>)
    requires AllOk(origins) && GoodSources(origins, sources)
    requires t <= |origins| && plan == Plan(sources, t) && Path(prev) && Ends(prev, t)
    ensures Behind(origins, prev, plan)
  {
    PlannedFrom(origins, sources, t);
    assert forall i: nat :: i < |sources| ==> GoodSource(origins[i], sources[i]) ==> Whole(sources[i]);
    PlanFollows(sources, t, prev);
    PlanEnds(sources, t, prev);
  }

  lemma {:induction false} RunPlanIs(sources: seq<Source>, from: Node, rest: seq<Node>, plan: seq<Node>)
    requires 0 <= from.id.table < |sources| && plan == Plan(sources, from.id.table + 1)
    ensures RunPlan(sources, Some(from), false, rest) == Placed(rest, from.id.table) + plan
  {
  }

  lemma {:induction false} SkipPlanIs(sources: seq<Source>, from: Node, plan: seq<Node>)
    requires 0 <= from.id.table < |sources| && plan == Plan(sources, from.id.table + 1)
    ensures RunPlan(sources, Some(from), true, []) == plan
  {
  }

  lemma {:induction false} RestEnds(o: Origin, from: Node, rest: seq<Node>, placed: seq<Node>)
    requires OriginOk(o) && !o.NotCompared? && 0 <= from.id.table && AllFit(o, rest) && placed == Placed(rest, from.id.table)
    requires Path([Own(from)] + rest) && LastOfTable(if rest == [] then Own(from) else rest[|rest| - 1])
    ensures Path([from] + placed) && Ends([from] + placed, from.id.table + 1)
  {
    FitZero(o, rest);
    RestPath(from, rest);
  }

  /** The same chunks, with those of the first table taken for part of what is emitted. */
  lemma {:induction false} Reassociate(origins: seq<Origin>, from: Node, rest: seq<Node>, prev: seq<Node>, plan: seq<Node>)
    requires AllOk(origins) && prev == [from] + rest && Behind(origins, prev, plan) && Planned(origins, rest)
    ensures Behind(origins, [from], rest + plan)
  {
    PlannedAppend(origins, rest, plan);
    Associate([from], rest, plan);
  }

  lemma {:induction false} FitZero(o: Origin, chunks: seq<Node>)
    requires OriginOk(o) && !o.NotCompared? && AllFit(o, chunks)
    ensures InTableZero(chunks)
  {
    forall i | 0 <= i < |chunks|
      ensures chunks[i].id.left >= 0
    {
      assert Fits(o, chunks[i]);
    }
  }

  lemma {:induction false} OwnWellFormed(c: Node)
    requires WellFormed(c) && c != INIT_NODE
    ensures WellFormed(Own(c))
  {
  }

  /** Behind any node of a history, a run goes on to the end of the last table. */
  lemma {:induction false} OnwardContinues(origins: seq<Origin>, rand: Samplers, from: Node)
    requires AllOk(origins) && GoodSamplers(origins, rand)
    requires from != INIT_NODE ==> Planned(origins, [from]) && WellFormed(from)
    ensures Behind(origins, [from], Onward(origins, rand, from))
  {
    AllWhole(origins, rand);
    if from == INIT_NODE {
      PlanBehind(origins, SourcesOf(origins, rand), 0, [INIT_NODE], Plan(SourcesOf(origins, rand), 0));
    } else {
      assert [from][0] == from;
      BehindSaved(origins, rand, from, SourcesOf(origins, rand));
    }
  }

  lemma {:induction false} BehindSaved(origins: seq<Origin>, rand: Samplers, from: Node, sources: seq<Source>)
    requires AllOk(origins) && GoodSamplers(origins, rand) && GoodSources(origins, sources) && WellFormed(from) && from != INIT_NODE
    requires 0 <= from.id.table < |origins| && Fits(origins[from.id.table], Own(from))
    ensures var o := origins[from.id.table];
            Behind(origins, [from], RunPlan(sources, Some(from), o.NotCompared?, RestOf(o, rand(from.id.table), from)))
  {
    if origins[from.id.table].NotCompared? {
      BehindSkipped(origins, from, sources);
    } else {
      BehindChunk(origins, rand, from, sources, origins[from.id.table], RestOf(origins[from.id.table], rand(from.id.table), Own(from)));
    }
  }

  lemma {:induction false} BehindSkipped(origins: seq<Origin>, from: Node, sources: seq<Source>)
    requires AllOk(origins) && GoodSources(origins, sources) && WellFormed(from) && LastOfTable(from) && 0 <= from.id.table < |origins|
    ensures Behind(origins, [from], RunPlan(sources, Some(from), true, []))
  {
    var plan := Plan(sources, from.id.table + 1);
    PlanBehind(origins, sources, from.id.table + 1, [from], plan);
    SkipPlanIs(sources, from, plan);
  }

  lemma {:induction false} RestPlaced(origins: seq<Origin>, rand: Samplers, from: Node, o: Origin, rest: seq<Node>, placed: seq<Node>)
    requires AllOk(origins) && GoodSamplers(origins, rand) && WellFormed(from) && from != INIT_NODE
    requires 0 <= from.id.table < |origins| && o == origins[from.id.table] && !o.NotCompared? && Fits(o, Own(from))
    requires rest == RestOf(o, rand(from.id.table), Own(from)) && placed == Placed(rest, from.id.table)
    ensures Path([from] + placed) && Ends([from] + placed, from.id.table + 1) && Planned(origins, placed)
  {
    OwnWellFormed(from);
    RestTable(o, rand(from.id.table), Own(from));
    RestEnds(o, from, rest, placed);
    PlannedPlaced(origins, rest, from.id.table);
  }

  lemma {:induction false} BehindPlaced(origins: seq<Origin>, sources: seq<Source>, from: Node, rest: seq<Node>, placed: seq<Node>, prev: seq<Node>)
    requires AllOk(origins) && GoodSources(origins, sources) && 0 <= from.id.table < |origins|
    requires placed == Placed(rest, from.id.table) && prev == [from] + placed
    requires Path(prev) && Ends(prev, from.id.table + 1) && Planned(origins, placed)
    ensures Behind(origins, [from], RunPlan(sources, Some(from), false, rest))
  {
    var plan := Plan(sources, from.id.table + 1);
    PlanBehind(origins, sources, from.id.table + 1, prev, plan);
    Reassociate(origins, from, placed, prev, plan);
    RunPlanIs(sources, from, rest, plan);
  }

  lemma {:induction false} BehindChunk(origins: seq<Origin>, rand: Samplers, from: Node, sources: seq<Source>, o: Origin, rest: seq<Node>)
    requires AllOk(origins) && GoodSamplers(origins, rand) && GoodSources(origins, sources) && WellFormed(from) && from != INIT_NODE
    requires 0 <= from.id.table < |origins| && o == origins[from.id.table] && !o.NotCompared? && Fits(o, Own(from))
    requires rest == RestOf(o, rand(from.id.table), Own(from))
    ensures Behind(origins, [from], RunPlan(sources, Some(from), false, rest))
  {
    var placed := Placed(rest, from.id.table);
    RestPlaced(origins, rand, from, o, rest, placed);
    BehindPlaced(origins, sources, from, rest, placed, [from] + placed);
  }

  /** Wherever a history is cut off, the next run's chunks make it one again, up to the end of the last table. */
  lemma {:induction false} HistoryContinues(origins: seq<Origin>, rand: Samplers, nodes: seq<Node>, at: nat)
    requires AllOk(origins) && GoodSamplers(origins, rand) && Produced(origins, nodes) && at < |nodes|
    requires at > 0 ==> nodes[at] != INIT_NODE && Planned(origins, [nodes[at]])
    ensures var nodes' := nodes[..at + 1] + Onward(origins, rand, nodes[at]);
            Produced(origins, nodes') && Ends(nodes', |origins|)
  {
    ProducedPrefix(origins, nodes, at);
    OnwardContinues(origins, rand, nodes[at]);
    BehindJoin(origins, nodes[..at + 1], Onward(origins, rand, nodes[at]));
  }

  lemma {:induction false} BehindJoin(origins: seq<Origin>, done: seq<Node>, more: seq<Node>)
    requires AllOk(origins) && Produced(origins, done) && Behind(origins, [done[|done| - 1]], more)
    ensures Produced(origins, done + more) && Ends(done + more, |origins|)
  {
    ProducedJoin(origins, done, more);
    if more != [] {
      assert (done + more)[|done + more| - 1] == ([done[|done| - 1]] + more)[|more|];
    } else {
      assert done + more == done;
    }
  }

  // ---------- Coverage ----------

  lemma {:induction false} TableFits(origins: seq<Origin>, nodes: seq<Node>, t: nat)
    requires AllOk(origins) && Planned(origins, nodes) && t < |origins|
    ensures forall iv: Interval :: iv in OfTable(nodes, t) ==> exists c: Node :: c.span == iv && Fits(origins[t], c)
    decreases |nodes|
  {
    if nodes != [] {
      assert Planned(origins, nodes[1..]) by {
        assert forall i :: 0 <= i < |nodes[1..]| ==> nodes[1..][i] == nodes[i + 1];
      }
      TableFits(origins, nodes[1..], t);
      assert nodes[0].id.table == t ==> Own(nodes[0]).span == nodes[0].span && Fits(origins[t], Own(nodes[0]));
    }
  }

  /** Rows as wide as the table's keys; for a table that is not compared, any. */
  predicate RowFits(o: Origin, row: RowKey) {
    NonNull(row) && (!o.NotCompared? ==> |row| == WidthOf(o)) && (o.Histogram? ==> BucketWidths(o.st.buckets, o.st.width) && SortedBuckets(o.st))
  }

  lemma {:induction false} TableInOrder(origins: seq<Origin>, nodes: seq<Node>, t: nat, row: RowKey)
    requires AllOk(origins) && Planned(origins, nodes) && t < |origins| && RowFits(origins[t], row)
    ensures Widths(OfTable(nodes, t), |row|) && AllOrdered(OfTable(nodes, t))
  {
    TableFits(origins, nodes, t);
    var ivs := OfTable(nodes, t);
    forall i | 0 <= i < |ivs|
      ensures Width(ivs[i], |row|) && Ordered(ivs[i])
    {
      assert ivs[i] in ivs;
      var c: Node :| c.span == ivs[i] && Fits(origins[t], c);
    }
  }

  lemma {:induction false} HistoryCovers(origins: seq<Origin>, nodes: seq<Node>, t: nat, row: RowKey)
    requires AllOk(origins) && Produced(origins, nodes) && Ends(nodes, |origins|) && t < |origins| && RowFits(origins[t], row)
    ensures Widths(OfTable(nodes, t), |row|) && Hits(OfTable(nodes, t), row) == 1
  {
    TableInOrder(origins, nodes[1..], t, row);
    assert OfTable(nodes, t) == OfTable(nodes[1..], t);
    TableChain(nodes, t);
    WholeChainOnce(OfTable(nodes, t), row);
  }
}
