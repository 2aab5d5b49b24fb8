/**
 * The global order of chunks: when one node follows another, and the lists of nodes the producers emit
 * (sync_diff_inspector/checkpoints/checkpoints.go, sync_diff_inspector/source/chunks_iter.go).  Along such a path the two
 * orders of the program agree, and adjacent nodes are neighbours.
 */
module Nodes {
  import opened Wrappers
  import opened Cover
  import opened Chunks
  import opened Ranges

  /** A chunk as the checkpoint sees it: its identity, its key interval and its two flags. */
  datatype Node = Node(id: ChunkID, span: Interval, isFirst: bool, isLast: bool)

  function NodeOf(c: Chunk): Node {
    Node(c.id, IntervalOf(c.bounds), c.isFirst, c.isLast)
  }

  predicate LastOfTable(n: Node) { n.isLast || n.span.upper.None? }

  predicate FirstOfTable(n: Node) { n.isFirst || n.span.lower.None? }

  predicate FirstOfBucket(n: Node) { n.id.index == 0 }

  predicate LastOfBucket(n: Node) { n.id.index == n.id.count - 1 }

  /** The tests on bounds and the tests on intervals agree when the bounds are on all columns or on none. */
  lemma {:induction false} EndsAgree(c: Chunk)
    requires Uniform(c.bounds)
    ensures IsLastChunkForTable(c) <==> LastOfTable(NodeOf(c))
    ensures IsFirstChunkForTable(c) <==> FirstOfTable(NodeOf(c))
  {
  }

  /** Whether `next` is the node right after `n`, judged from the two nodes alone. */
  predicate IsAdjacent(n: Node, next: Node) {
    if n.id.table == next.id.table - 1 then
      LastOfTable(n) && FirstOfTable(next)
    else if n.id.table == next.id.table then
      if n.id.right == next.id.left - 1 then
        LastOfBucket(n) && FirstOfBucket(next)
      else if n.id.left == next.id.left then
        n.id.index == next.id.index - 1
      else false
    else false
  }

  predicate IsLess(n: Node, next: Node) {
    if n.id.table < next.id.table then true
    else if n.id.table == next.id.table then
      if n.id.left <= next.id.left - 1 then true
      else if n.id.left == next.id.left then n.id.index < next.id.index
      else false
    else false
  }

  /** The node a fresh checkpoint starts from: before the first table. */
  const INIT_NODE := Node(INIT_CHUNK_ID, Interval(None, None), true, true)

  /** What every emitted node satisfies on its own. */
  predicate WellFormed(c: Node) {
    && c.id.left <= c.id.right
    && (0 <= c.id.index || c == INIT_NODE)
    && c.id.index < (if c.id.count > 1 then c.id.count else 1)
    && (c.isFirst || c.isLast ==> c.span == Interval(None, None))
  }

  predicate SameGroup(a: Node, b: Node) {
    a.id.left == b.id.left && a.id.right == b.id.right && a.id.count == b.id.count
  }

  /** The producers emit `b` right after `a`: it starts where `a` ends, in the same group, the next group or the next table. */
  predicate Continues(a: Node, b: Node) {
    if a.id.table == b.id.table then
      && !LastOfTable(a)
      && b.span.lower == a.span.upper
      && ((SameGroup(a, b) && b.id.index == a.id.index + 1) || (b.id.left == a.id.right + 1 && b.id.index == 0))
    else
      a.id.table + 1 == b.id.table && LastOfTable(a) && FirstOfTable(b)
  }

  /** Well-formed nodes, each continuing the one before. */
  predicate Path(p: seq<Node>) {
    p == [] || (WellFormed(p[0]) && (|p| > 1 ==> Continues(p[0], p[1])) && Path(p[1..]))
  }

  lemma {:induction false} PathAt(p: seq<Node>, i: nat)
    requires Path(p) && i < |p|
    ensures WellFormed(p[i]) && (i + 1 < |p| ==> Continues(p[i], p[i + 1]))
  {
    if i > 0 {
      PathAt(p[1..], i - 1);
    }
  }

  lemma {:induction false} PathFrom(p: seq<Node>)
    requires forall i :: 0 <= i < |p| ==> WellFormed(p[i])
    requires forall i :: 0 <= i < |p| - 1 ==> Continues(p[i], p[i + 1])
    ensures Path(p)
  {
    if p != [] {
      PathFrom(p[1..]);
    }
  }

  /** How two nodes of a path relate, however far apart. */
  lemma {:induction false} AlongPath(p: seq<Node>, i: nat, j: nat)
    requires Path(p) && i < j < |p|
    ensures p[i].id.table <= p[j].id.table
    ensures p[i].id.table == p[j].id.table ==>
      && (SameGroup(p[i], p[j]) ==> p[j].id.index == p[i].id.index + (j - i))
      && (SameGroup(p[i], p[j]) || p[j].id.left > p[i].id.right)
      && !FirstOfTable(p[j]) && !LastOfTable(p[i])
    ensures p[i].id.table == p[j].id.table ==> p[j].id.left > p[i].id.right || p[j].id.index > p[i].id.index
  {
    PathAt(p, j - 1);
    PathAt(p, j);
    if j > i + 1 {
      AlongPath(p, i, j - 1);
    }
    if p[j - 1].id.table == p[j].id.table {
      assert p[j - 1].span.upper.Some?;
    }
  }

  /** Identities increase strictly along a path, in both of the program's orders. */
  lemma {:induction false} Increasing(p: seq<Node>, i: nat, j: nat)
    requires Path(p) && i < j < |p|
    ensures Compare(p[i].id, p[j].id) < 0
    ensures IsLess(p[i], p[j]) && !IsLess(p[j], p[i])
  {
    AlongPath(p, i, j);
    PathAt(p, i);
  }

  /** The order of the heap is the order of identities. */
  lemma {:induction false} LessIsCompare(a: Node, b: Node)
    ensures IsLess(a, b) <==> Compare(a.id, b.id) < 0
  {
  }

  /** Nodes that look adjacent are neighbours: nothing on the path lies between them. */
  lemma {:induction false} AdjacentIsNext(p: seq<Node>, i: nat, j: nat)
    requires Path(p) && i < |p| && j < |p|
    ensures IsAdjacent(p[i], p[j]) ==> j == i + 1
  {
    PathAt(p, i);
    PathAt(p, j);
    if j < i {
      AlongPath(p, j, i);
    } else if j > i + 1 {
      PathAt(p, i + 1);
      AlongPath(p, i, j);
      AlongPath(p, i, i + 1);
      AlongPath(p, i + 1, j);
    }
  }

  /** Neighbours look adjacent unless a group ended before its announced number of chunks. */
  lemma {:induction false} NextIsAdjacent(p: seq<Node>, i: nat)
    requires Path(p) && i + 1 < |p|
    ensures IsAdjacent(p[i], p[i + 1]) <==>
            (p[i].id.table == p[i + 1].id.table && !SameGroup(p[i], p[i + 1]) ==> p[i].id.index + 1 == p[i].id.count)
  {
    PathAt(p, i);
    PathAt(p, i + 1);
  }

  lemma {:induction false} PathAppend(p: seq<Node>, q: seq<Node>)
    requires Path(p) && Path(q)
    requires p != [] && q != [] ==> Continues(p[|p| - 1], q[0])
    ensures Path(p + q)
  {
    if p == [] {
      assert p + q == q;
    } else {
      assert (p + q)[1..] == p[1..] + q;
      PathAppend(p[1..], q);
    }
  }

  lemma {:induction false} PathSlice(p: seq<Node>, i: nat, j: nat)
    requires Path(p) && i <= j <= |p|
    ensures Path(p[i..j])
  {
    forall k | i <= k < j
      ensures WellFormed(p[k]) && (k + 1 < |p| ==> Continues(p[k], p[k + 1]))
    {
      PathAt(p, k);
    }
    PathFrom(p[i..j]);
  }

  // ---------- What a finished path covers ----------

  function OfTable(p: seq<Node>, t: int): seq<Interval> {
    if p == [] then []
    else (if p[0].id.table == t then [p[0].span] else []) + OfTable(p[1..], t)
  }

  lemma {:induction false} NothingBefore(p: seq<Node>, t: int)
    requires forall i :: 0 <= i < |p| ==> p[i].id.table > t
    ensures OfTable(p, t) == []
  {
    if p != [] {
      NothingBefore(p[1..], t);
    }
  }

  lemma {:induction false} ChainCons(iv: Interval, ivs: seq<Interval>)
    requires ivs != [] && Chain(ivs) && iv.upper.Some? && ivs[0].lower == iv.upper
    ensures Chain([iv] + ivs) && Outer([iv] + ivs) == Interval(iv.lower, Outer(ivs).upper)
  {
  }

  lemma {:induction false} TableEnds(p: seq<Node>, t: int)
    requires Path(p) && |p| > 1 && p[0].id.table == t && p[1].id.table > t
    ensures OfTable(p, t) == [p[0].span]
  {
    forall i | 1 <= i < |p|
      ensures p[i].id.table > t
    {
      if i > 1 {
        AlongPath(p[1..], 0, i - 1);
      }
    }
    NothingBefore(p[1..], t);
  }

  /** A run of intervals open at its upper end, and at its lower end when it is known to start the table. */
  predicate ClosesTable(ivs: seq<Interval>) {
    ivs != [] && Chain(ivs) && Outer(ivs).upper == None
  }

  /** Every table a path passes is covered by a chain of intervals, open at both ends. */
  lemma {:induction false} TableChain(p: seq<Node>, t: int)
    requires Path(p) && p != [] && LastOfTable(p[|p| - 1])
    requires p[0].id.table <= t <= p[|p| - 1].id.table
    ensures ClosesTable(OfTable(p, t))
    ensures OfTable(p, t)[0].lower == if p[0].id.table == t then p[0].span.lower else None
  {
    var tail := p[1..];
    if tail == [] {
      TableLast(p[0], p, t);
    } else if p[0].id.table == t && p[1].id.table > t {
      TableEnds(p, t);
    } else {
      PathAt(p, 0);
      TableChain(tail, t);
      if p[0].id.table == t {
        ChainCons(p[0].span, OfTable(tail, t));
      } else {
        NotOfTable(p, t);
      }
    }
  }

  lemma {:induction false} TableLast(n: Node, p: seq<Node>, t: int)
    requires p == [n] && n.id.table == t
    ensures OfTable(p, t) == [n.span]
  {
    assert p[1..] == [];
  }

  lemma {:induction false} NotOfTable(p: seq<Node>, t: int)
    requires p != [] && p[0].id.table != t
    ensures OfTable(p, t) == OfTable(p[1..], t)
  {
  }
}
