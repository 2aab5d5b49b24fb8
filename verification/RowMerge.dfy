/**
 * The rows of several shards as one sorted stream (sync_diff_inspector/source/mysql_shard.go): a heap holds the next row
 * of every shard that has one.  The iterator is an object over its heap and the rest of each shard, and its meaning is
 * the multiset of rows that are still to come.
 */
module RowMerge {
  import opened Wrappers
  import opened Heaps
  import opened RowOrder

  datatype RowData = RowData(data: Row, source: nat)

  /** The heap's order; rows that do not fit the table, which do not occur, come last. */
  predicate Before(l: Layout, a: RowData, b: RowData)
    requires LayoutOk(l)
  {
    RowOk(l, a.data) && (!RowOk(l, b.data) || Less(l, a.data, b.data))
  }

  function Ordering(l: Layout): Order<RowData>
    requires LayoutOk(l)
  {
    (a, b) => Before(l, a, b)
  }

  lemma {:induction false} LessStrictWeak(l: Layout, a: Row, b: Row, c: Row)
    requires LayoutOk(l) && RowOk(l, a) && RowOk(l, b) && RowOk(l, c)
    ensures !Less(l, a, a)
    ensures Less(l, a, b) && Less(l, b, c) ==> Less(l, a, c)
    ensures !Less(l, a, b) && !Less(l, b, c) ==> !Less(l, a, c)
  {
    BothThreeWay();
    LexAntisymmetric(NullFirst, l, l.keys, a, a);
    LexAntisymmetric(NullFirst, l, l.keys, a, b);
    LexAntisymmetric(NullFirst, l, l.keys, b, c);
    LexAntisymmetric(NullFirst, l, l.keys, a, c);
    if Less(l, a, b) && Less(l, b, c) {
      LexTransitive(NullFirst, l, l.keys, a, b, c);
    }
    if !Less(l, a, b) && !Less(l, b, c) {
      LexTransitive(NullFirst, l, l.keys, c, b, a);
    }
  }

  lemma {:induction false} OrderingStrictWeak(l: Layout)
    requires LayoutOk(l)
    ensures StrictWeak(Ordering(l))
  {
    var less := Ordering(l);
    forall a: RowData, b: RowData, c: RowData
      ensures !less(a, a)
      ensures less(a, b) && less(b, c) ==> less(a, c)
      ensures !less(a, b) && !less(b, c) ==> !less(a, c)
    {
      if RowOk(l, a.data) {
        LessStrictWeak(l, a.data, a.data, a.data);
        if RowOk(l, b.data) && RowOk(l, c.data) {
          LessStrictWeak(l, a.data, b.data, c.data);
        }
      }
    }
  }

  predicate RowsOk(l: Layout, rows: seq<Row>) {
    forall i :: 0 <= i < |rows| ==> RowOk(l, rows[i])
  }

  predicate SortedRows(l: Layout, rows: seq<Row>)
    requires LayoutOk(l) && RowsOk(l, rows)
  {
    forall i, j :: 0 <= i < j < |rows| ==> !Less(l, rows[j], rows[i])
  }

  predicate Shard(l: Layout, rows: seq<Row>) {
    LayoutOk(l) && RowsOk(l, rows) && SortedRows(l, rows)
  }

  // ---------- Sums of multisets ----------

  function Sum<T>(parts: seq<multiset<T>>, n: nat): multiset<T>
    requires n <= |parts|
  {
    if n == 0 then multiset{} else Sum(parts, n - 1) + parts[n - 1]
  }

  lemma {:induction false} SumAgain<T>(a: seq<multiset<T>>, b: seq<multiset<T>>, n: nat)
    requires n <= |a| && n <= |b| && forall i :: 0 <= i < n ==> a[i] == b[i]
    ensures Sum(a, n) == Sum(b, n)
  {
    if n > 0 {
      SumAgain(a, b, n - 1);
    }
  }

  lemma {:induction false} Exchange<T>(x: multiset<T>, y: multiset<T>, p: multiset<T>, q: multiset<T>, e: multiset<T>)
    requires x + p == y + q
    ensures x + e + p == y + e + q
  {
    assert x + e + p == x + p + e;
    assert y + e + q == y + q + e;
  }

  lemma {:induction false} Cancel<T>(x: multiset<T>, y: multiset<T>, p: multiset<T>)
    requires x + p == y + p
    ensures x == y
  {
    forall e: T
      ensures x[e] == y[e]
    {
      assert (x + p)[e] == (y + p)[e];
    }
  }

  /** Exchanging one part exchanges it in the sum. */
  lemma {:induction false} SumUpdate<T>(a: seq<multiset<T>>, b: seq<multiset<T>>, s: nat, n: nat)
    requires s < n <= |a| && n <= |b| && forall i :: 0 <= i < n && i != s ==> a[i] == b[i]
    ensures Sum(b, n) + a[s] == Sum(a, n) + b[s]
  {
    if s == n - 1 {
      SumAgain(a, b, n - 1);
    } else {
      SumUpdate(a, b, s, n - 1);
      Exchange(Sum(b, n - 1), Sum(a, n - 1), a[s], b[s], a[n - 1]);
    }
  }

  lemma {:induction false} SumIn<T>(parts: seq<multiset<T>>, s: nat, x: T, n: nat)
    requires s < n <= |parts| && x in parts[s]
    ensures x in Sum(parts, n)
  {
    if s < n - 1 {
      SumIn(parts, s, x, n - 1);
    }
  }

  lemma {:induction false} SumFrom<T>(parts: seq<multiset<T>>, x: T, n: nat) returns (s: nat)
    requires n <= |parts| && x in Sum(parts, n)
    ensures s < n && x in parts[s]
  {
    if x in parts[n - 1] {
      s := n - 1;
    } else {
      s := SumFrom(parts, x, n - 1);
    }
  }

  lemma {:induction false} SumEmpty<T>(parts: seq<multiset<T>>, n: nat)
    requires n <= |parts| && forall i :: 0 <= i < n ==> parts[i] == multiset{}
    ensures Sum(parts, n) == multiset{}
  {
    if n > 0 {
      SumEmpty(parts, n - 1);
    }
  }

  // ---------- Specification ----------

  /** What a shard still has to give: its row in the heap, then its unread rows. */
  function Stream(head: Option<Row>, rest: seq<Row>): seq<Row> {
    if head.Some? then [head.value] + rest else rest
  }

  function One(h: Option<Row>, s: nat): multiset<RowData> {
    if h.Some? then multiset{RowData(h.value, s)} else multiset{}
  }

  function HeadParts(heads: seq<Option<Row>>): seq<multiset<RowData>> {
    seq(|heads|, s requires 0 <= s < |heads| => One(heads[s], s))
  }

  /** The heap's rows, one for each shard that has one. */
  function HeadsOf(heads: seq<Option<Row>>): multiset<RowData> {
    Sum(HeadParts(heads), |heads|)
  }

  function StreamParts(heads: seq<Option<Row>>, rest: seq<seq<Row>>): seq<multiset<Row>>
    requires |heads| == |rest|
  {
    seq(|heads|, s requires 0 <= s < |heads| => multiset(Stream(heads[s], rest[s])))
  }

  /** Everything the shards still have to give. */
  function PendingOf(heads: seq<Option<Row>>, rest: seq<seq<Row>>): multiset<Row>
    requires |heads| == |rest|
  {
    Sum(StreamParts(heads, rest), |heads|)
  }

  function Below(n: nat): (r: set<nat>)
    ensures forall s: nat :: s in r <==> s < n
  {
    if n == 0 then {} else Below(n - 1) + {n - 1}
  }

  function RowParts(shards: seq<seq<Row>>): seq<multiset<Row>> {
    seq(|shards|, s requires 0 <= s < |shards| => multiset(shards[s]))
  }

  function AllRows(shards: seq<seq<Row>>): multiset<Row> {
    Sum(RowParts(shards), |shards|)
  }

  /** A shard that has no row in the heap is exhausted. */
  predicate Primed(heads: seq<Option<Row>>, rest: seq<seq<Row>>)
    requires |heads| == |rest|
  {
    forall s :: 0 <= s < |heads| && heads[s].None? ==> rest[s] == []
  }

  predicate Shards(l: Layout, heads: seq<Option<Row>>, rest: seq<seq<Row>>)
    requires |heads| == |rest|
  {
    forall s :: 0 <= s < |heads| ==> Shard(l, Stream(heads[s], rest[s]))
  }

  // ---------- The iterator ----------

  class MultiSourceRowsIterator {
    const layout: Layout
    var sourceRows: seq<seq<Row>>
    var rows: seq<RowData>
    ghost var heads: seq<Option<Row>>

    /** The heap holds exactly the heads of the shards that are not exhausted, and every shard is sorted. */
    ghost predicate Valid()
      reads this
    {
      && LayoutOk(layout) && |heads| == |sourceRows|
      && IsHeap(rows, Ordering(layout)) && multiset(rows) == HeadsOf(heads)
      && Primed(heads, sourceRows) && Shards(layout, heads, sourceRows)
    }

    ghost function Pending(): multiset<Row>
      reads this
      requires |heads| == |sourceRows|
    {
      PendingOf(heads, sourceRows)
    }

    /** Takes one row from every shard, in any order of the shards. */
    constructor (layout: Layout, shards: seq<seq<Row>>)
      requires LayoutOk(layout) && forall s :: 0 <= s < |shards| ==> Shard(layout, shards[s])
      ensures Valid() && Pending() == AllRows(shards) && this.layout == layout
    {
      this.layout := layout;
      sourceRows := shards;
      rows := [];
      heads := seq(|shards|, i => None);
      new;
      SumEmpty(HeadParts(heads), |heads|);
      var todo := Below(|shards|);
      while todo != {}
        invariant IsHeap(rows, Ordering(layout)) && multiset(rows) == HeadsOf(heads)
        invariant Priming(heads, sourceRows, shards, todo)
        decreases todo
      {
        var source :| source in todo;
        ghost var h0, r0 := heads, sourceRows;
        Refill(source);
        PrimingStep(h0, r0, heads, sourceRows, shards, todo, source);
        todo := todo - {source};
      }
      SumAgain(StreamParts(heads, sourceRows), RowParts(shards), |shards|);
    }

    /** Puts the next row of a shard into the heap, if it has one. */
    method Refill(source: nat)
      requires LayoutOk(layout) && IsHeap(rows, Ordering(layout)) && multiset(rows) == HeadsOf(heads)
      requires |heads| == |sourceRows| && source < |heads| && heads[source].None?
      modifies this
      ensures IsHeap(rows, Ordering(layout)) && multiset(rows) == HeadsOf(heads)
      ensures |heads| == |sourceRows| == |old(heads)|
      ensures heads[source].None? ==> sourceRows[source] == []
      ensures Stream(heads[source], sourceRows[source]) == old(sourceRows[source])
      ensures forall s :: 0 <= s < |heads| && s != source ==> heads[s] == old(heads[s]) && sourceRows[s] == old(sourceRows[s])
    {
      if sourceRows[source] != [] {
        OrderingStrictWeak(layout);
        var newRow := sourceRows[source][0];
        rows := Push(rows, RowData(newRow, source), Ordering(layout));
        HeadAdded(heads, source, newRow);
        heads := heads[source := Some(newRow)];
        sourceRows := sourceRows[source := sourceRows[source][1..]];
      }
    }

    /**
     * The next row of the merged stream: none when every shard is exhausted, and none ever after; otherwise a row that
     * no row still to come is less than.
     */
    method Next() returns (row: Option<Row>)
      requires Valid()
      modifies this
      ensures Valid()
      ensures row.None? <==> old(Pending()) == multiset{}
      ensures row.None? ==> Pending() == multiset{}
      ensures row.Some? ==> NextOf(layout, old(Pending()), row.value, Pending())
    {
      if |rows| == 0 {
        NothingLeft(heads, sourceRows);
        return None;
      }
      ghost var h0, r0 := heads, sourceRows;
      var top := Take();
      Refill(top.source);
      Advanced(h0, r0, top, heads, sourceRows);
      StillShards(layout, h0, r0, top, heads, sourceRows);
      return Some(top.data);
    }

    /** Takes the least row out of the heap. */
    method Take() returns (top: RowData)
      requires Valid() && rows != []
      modifies this
      ensures IsHeap(rows, Ordering(layout)) && multiset(rows) == HeadsOf(heads) && sourceRows == old(sourceRows)
      ensures top.source < |old(heads)| && old(heads)[top.source] == Some(top.data) && heads == old(heads)[top.source := None]
      ensures top.data in old(Pending()) && RowOk(layout, top.data)
      ensures forall r: Row :: r in old(Pending()) ==> RowOk(layout, r) && !Less(layout, r, top.data)
    {
      OrderingStrictWeak(layout);
      RootMinimal(rows, Ordering(layout));
      HeadMinimal(layout, heads, sourceRows, multiset(rows), rows[0]);
      HeadTaken(heads, rows[0]);
      var rest;
      top, rest := Pop(rows, Ordering(layout));
      rows := rest;
      heads := heads[top.source := None];
    }
  }

  /** One row taken: minimal among what was pending, and the rest stays. */
  ghost predicate NextOf(l: Layout, pending: multiset<Row>, row: Row, left: multiset<Row>) {
    && pending == left + multiset{row}
    && LayoutOk(l) && RowOk(l, row) && (forall r: Row :: r in pending ==> RowOk(l, r) && !Less(l, r, row))
  }

  /** With the shards in `todo` still to be asked for their first row. */
  ghost predicate Priming(heads: seq<Option<Row>>, rest: seq<seq<Row>>, shards: seq<seq<Row>>, todo: set<nat>) {
    && |heads| == |rest| == |shards|
    && (forall s :: s in todo ==> s < |shards| && heads[s].None?)
    && (forall s :: 0 <= s < |heads| && s !in todo && heads[s].None? ==> rest[s] == [])
    && (forall s :: 0 <= s < |heads| ==> Stream(heads[s], rest[s]) == shards[s])
  }

  // ---------- Lemmas ----------

  lemma {:induction false} PrimingStep(h0: seq<Option<Row>>, r0: seq<seq<Row>>, h1: seq<Option<Row>>, r1: seq<seq<Row>>,
                                       shards: seq<seq<Row>>, todo: set<nat>, source: nat)
    requires Priming(h0, r0, shards, todo) && source in todo && |h1| == |r1| == |h0|
    requires h1[source].None? ==> r1[source] == []
    requires Stream(h1[source], r1[source]) == r0[source]
    requires forall s :: 0 <= s < |h0| && s != source ==> h1[s] == h0[s] && r1[s] == r0[s]
    ensures Priming(h1, r1, shards, todo - {source})
  {
  }

  lemma {:induction false} HeadAdded(heads: seq<Option<Row>>, s: nat, r: Row)
    requires s < |heads| && heads[s].None?
    ensures HeadsOf(heads[s := Some(r)]) == HeadsOf(heads) + multiset{RowData(r, s)}
  {
    SumUpdate(HeadParts(heads), HeadParts(heads[s := Some(r)]), s, |heads|);
  }

  lemma {:induction false} HeadTaken(heads: seq<Option<Row>>, x: RowData)
    requires x in HeadsOf(heads)
    ensures x.source < |heads| && heads[x.source] == Some(x.data)
    ensures HeadsOf(heads[x.source := None]) == HeadsOf(heads) - multiset{x}
  {
    var s := SumFrom(HeadParts(heads), x, |heads|);
    var gone := heads[x.source := None];
    SumUpdate(HeadParts(heads), HeadParts(gone), s, |heads|);
    TakeOut(HeadsOf(gone), HeadsOf(heads), x);
  }

  lemma {:induction false} TakeOut<T>(m: multiset<T>, n: multiset<T>, x: T)
    requires m + multiset{x} == n + multiset{}
    ensures m == n - multiset{x}
  {
    forall e: T
      ensures m[e] == (n - multiset{x})[e]
    {
      assert (m + multiset{x})[e] == n[e];
    }
  }

  /** Which shard a pending row comes from. */
  lemma {:induction false} PendingFrom(heads: seq<Option<Row>>, rest: seq<seq<Row>>, r: Row) returns (s: nat, i: nat)
    requires |heads| == |rest| && r in PendingOf(heads, rest)
    ensures s < |heads| && i < |Stream(heads[s], rest[s])| && Stream(heads[s], rest[s])[i] == r
  {
    s := SumFrom(StreamParts(heads, rest), r, |heads|);
    var stream := Stream(heads[s], rest[s]);
    assert r in stream;
    i :| 0 <= i < |stream| && stream[i] == r;
  }

  /** With an empty heap nothing is pending. */
  lemma {:induction false} NothingLeft(heads: seq<Option<Row>>, rest: seq<seq<Row>>)
    requires |heads| == |rest| && HeadsOf(heads) == multiset{} && Primed(heads, rest)
    ensures PendingOf(heads, rest) == multiset{}
  {
    forall s | 0 <= s < |heads|
      ensures StreamParts(heads, rest)[s] == multiset{}
    {
      if heads[s].Some? {
        SumIn(HeadParts(heads), s, RowData(heads[s].value, s), |heads|);
      }
    }
    SumEmpty(StreamParts(heads, rest), |heads|);
  }

  /** The least head is the least row of all shards. */
  lemma {:induction false} HeadMinimal(l: Layout, heads: seq<Option<Row>>, rest: seq<seq<Row>>, heap: multiset<RowData>, top: RowData)
    requires LayoutOk(l) && |heads| == |rest| && heap == HeadsOf(heads) && Primed(heads, rest) && Shards(l, heads, rest)
    requires top in heap && Minimal(top, heap, Ordering(l))
    ensures top.data in PendingOf(heads, rest) && RowOk(l, top.data)
    ensures forall r: Row :: r in PendingOf(heads, rest) ==> RowOk(l, r) && !Less(l, r, top.data)
  {
    HeadTaken(heads, top);
    var stream := Stream(heads[top.source], rest[top.source]);
    assert stream[0] == top.data && Shard(l, stream);
    assert top.data in multiset(stream);
    SumIn(StreamParts(heads, rest), top.source, top.data, |heads|);
    forall r: Row | r in PendingOf(heads, rest)
      ensures RowOk(l, r) && !Less(l, r, top.data)
    {
      var s, i := PendingFrom(heads, rest, r);
      NotBelow(l, heads, rest, heap, top, s, i);
    }
  }

  lemma {:induction false} NotBelow(l: Layout, heads: seq<Option<Row>>, rest: seq<seq<Row>>, heap: multiset<RowData>, top: RowData, s: nat, i: nat)
    requires LayoutOk(l) && |heads| == |rest| && heap == HeadsOf(heads) && s < |heads|
    requires heads[s].None? ==> rest[s] == []
    requires Shard(l, Stream(heads[s], rest[s])) && i < |Stream(heads[s], rest[s])|
    requires RowOk(l, top.data) && Minimal(top, heap, Ordering(l))
    ensures RowOk(l, Stream(heads[s], rest[s])[i]) && !Less(l, Stream(heads[s], rest[s])[i], top.data)
  {
    var stream := Stream(heads[s], rest[s]);
    var head := RowData(stream[0], s);
    SumIn(HeadParts(heads), s, head, |heads|);
    assert head in heap;
    assert !Ordering(l)(head, top);
    assert !Less(l, head.data, top.data);
    if i > 0 {
      LessStrictWeak(l, stream[i], stream[0], top.data);
    }
  }

  /** Taking a shard's head takes exactly that row out of what is pending. */
  lemma {:induction false} Advanced(h0: seq<Option<Row>>, r0: seq<seq<Row>>, top: RowData, h1: seq<Option<Row>>, r1: seq<seq<Row>>)
    requires |h0| == |r0| == |h1| == |r1| && top.source < |h0| && h0[top.source] == Some(top.data)
    requires forall t :: 0 <= t < |h0| && t != top.source ==> h1[t] == h0[t] && r1[t] == r0[t]
    requires Stream(h1[top.source], r1[top.source]) == r0[top.source]
    ensures PendingOf(h0, r0) == PendingOf(h1, r1) + multiset{top.data}
  {
    var s := top.source;
    var one, rest := multiset{top.data}, multiset(r0[s]);
    SumUpdate(StreamParts(h0, r0), StreamParts(h1, r1), s, |h0|);
    var before, after := PendingOf(h0, r0), PendingOf(h1, r1);
    StreamSplit(top.data, r0[s]);
    assert after + (one + rest) == before + rest;
    assert after + (one + rest) == (after + one) + rest;
    Cancel(before, after + one, rest);
  }

  lemma {:induction false} StreamSplit(head: Row, rest: seq<Row>)
    ensures multiset(Stream(Some(head), rest)) == multiset{head} + multiset(rest)
  {
  }

  /** The shards are as before, but for one that has one row less. */
  lemma {:induction false} StillShards(l: Layout, h0: seq<Option<Row>>, r0: seq<seq<Row>>, top: RowData, h1: seq<Option<Row>>, r1: seq<seq<Row>>)
    requires |h0| == |r0| == |h1| == |r1| && top.source < |h0| && h0[top.source] == Some(top.data)
    requires forall t :: 0 <= t < |h0| && t != top.source ==> h1[t] == h0[t] && r1[t] == r0[t]
    requires Stream(h1[top.source], r1[top.source]) == r0[top.source] && (h1[top.source].None? ==> r1[top.source] == [])
    requires Primed(h0, r0) && Shards(l, h0, r0)
    ensures Primed(h1, r1) && Shards(l, h1, r1)
  {
    assert Shard(l, Stream(h0[top.source], r0[top.source]));
    ShardTail(l, top.data, r0[top.source]);
    forall s | 0 <= s < |h1|
      ensures Shard(l, Stream(h1[s], r1[s]))
    {
      assert Shard(l, Stream(h0[s], r0[s]));
    }
  }

  lemma {:induction false} ShardTail(l: Layout, head: Row, rest: seq<Row>)
    requires Shard(l, Stream(Some(head), rest))
    ensures Shard(l, rest)
  {
    var stream := Stream(Some(head), rest);
    assert forall i :: 0 <= i < |rest| ==> rest[i] == stream[i + 1];
  }

  // ---------- The whole stream ----------

  /** The rows that repeated calls of `Next` return, from a pending multiset until nothing is left. */
  ghost predicate Merged(l: Layout, pending: multiset<Row>, out: seq<Row>)
    decreases |out|
  {
    if out == [] then pending == multiset{}
    else exists left: multiset<Row> :: NextOf(l, pending, out[0], left) && Merged(l, left, out[1..])
  }

  lemma {:induction false} SortedCons(l: Layout, r: Row, tail: seq<Row>)
    requires LayoutOk(l) && RowOk(l, r) && RowsOk(l, tail) && SortedRows(l, tail)
    requires forall k :: 0 <= k < |tail| ==> !Less(l, tail[k], r)
    ensures RowsOk(l, [r] + tail) && SortedRows(l, [r] + tail)
  {
    var out := [r] + tail;
    assert forall k :: 0 < k < |out| ==> out[k] == tail[k - 1];
  }

  lemma {:induction false} MergedNext(l: Layout, pending: multiset<Row>, out: seq<Row>) returns (left: multiset<Row>)
    requires Merged(l, pending, out) && out != []
    ensures NextOf(l, pending, out[0], left) && Merged(l, left, out[1..])
  {
    left :| NextOf(l, pending, out[0], left) && Merged(l, left, out[1..]);
  }

  lemma {:induction false} SortedNext(l: Layout, pending: multiset<Row>, left: multiset<Row>, out: seq<Row>)
    requires LayoutOk(l) && out != [] && NextOf(l, pending, out[0], left)
    requires multiset(out[1..]) == left && RowsOk(l, out[1..]) && SortedRows(l, out[1..])
    ensures multiset(out) == pending && RowsOk(l, out) && SortedRows(l, out)
  {
    var tail := out[1..];
    forall k | 0 <= k < |tail|
      ensures !Less(l, tail[k], out[0])
    {
      assert tail[k] in left;
    }
    SortedCons(l, out[0], tail);
    assert out == [out[0]] + tail;
  }

  /** Repeated calls return every row of every shard exactly once, in order. */
  lemma {:induction false} MergedSorted(l: Layout, pending: multiset<Row>, out: seq<Row>)
    requires LayoutOk(l) && Merged(l, pending, out)
    ensures multiset(out) == pending && RowsOk(l, out) && SortedRows(l, out)
    decreases |out|
  {
    if out != [] {
      var left := MergedNext(l, pending, out);
      MergedSorted(l, left, out[1..]);
      SortedNext(l, pending, left, out);
    }
  }
}
