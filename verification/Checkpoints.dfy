/**
 * The checkpoint (sync_diff_inspector/checkpoints/checkpoints.go): workers finish chunks in any order, and the
 * saved node advances over the finished chunks for as long as the next one is adjacent.
 */
module Checkpoints {
  import opened Wrappers
  import opened Nodes
  import opened Heaps

  lemma {:induction false} OrderOk()
    ensures StrictWeak(IsLess)
  {
  }

  /**
   * What one flush takes out: node after node, each minimal in the heap and adjacent to the one before,
   * until the heap is empty or its minimum is not adjacent.
   */
  ghost predicate Drains(h: multiset<Node>, saved: Node, popped: seq<Node>, left: multiset<Node>)
    decreases |popped|
  {
    if popped == [] then
      left == h && (h == multiset{} || exists m :: m in h && Minimal(m, h, IsLess) && !IsAdjacent(saved, m))
    else
      && popped[0] in h && Minimal(popped[0], h, IsLess) && IsAdjacent(saved, popped[0])
      && Drains(h - multiset{popped[0]}, popped[0], popped[1..], left)
  }

  function LastOr(popped: seq<Node>, saved: Node): Node {
    if popped == [] then saved else popped[|popped| - 1]
  }

  /** Part of a flush, up to some point of its loop. */
  ghost predicate Drained(h: multiset<Node>, saved: Node, popped: seq<Node>, left: multiset<Node>)
    decreases |popped|
  {
    if popped == [] then left == h
    else
      && popped[0] in h && Minimal(popped[0], h, IsLess) && IsAdjacent(saved, popped[0])
      && Drained(h - multiset{popped[0]}, popped[0], popped[1..], left)
  }

  lemma {:induction false} DrainedMore(h: multiset<Node>, saved: Node, popped: seq<Node>, left: multiset<Node>, x: Node)
    requires Drained(h, saved, popped, left)
    requires x in left && Minimal(x, left, IsLess) && IsAdjacent(LastOr(popped, saved), x)
    ensures Drained(h, saved, popped + [x], left - multiset{x})
    decreases |popped|
  {
    if popped == [] {
      assert (popped + [x])[1..] == [];
    } else {
      assert (popped + [x])[1..] == popped[1..] + [x];
      DrainedMore(h - multiset{popped[0]}, popped[0], popped[1..], left, x);
    }
  }

  lemma {:induction false} DrainedStops(h: multiset<Node>, saved: Node, popped: seq<Node>, left: multiset<Node>)
    requires Drained(h, saved, popped, left)
    requires left == multiset{} || exists m :: m in left && Minimal(m, left, IsLess) && !IsAdjacent(LastOr(popped, saved), m)
    ensures Drains(h, saved, popped, left)
    decreases |popped|
  {
    if popped != [] {
      DrainedStops(h - multiset{popped[0]}, popped[0], popped[1..], left);
    }
  }

  class Checkpoint {
    var nodes: seq<Node>
    var currentSavedNode: Node

    ghost predicate Valid()
      reads this
    {
      IsHeap(nodes, IsLess)
    }

    constructor ()
      ensures Valid() && nodes == [] && currentSavedNode == INIT_NODE
    {
      nodes := [];
      currentSavedNode := INIT_NODE;
    }

    method InitCurrentSavedID(n: Node)
      modifies `currentSavedNode
      ensures currentSavedNode == n
    {
      currentSavedNode := n;
    }

    /** Records a finished chunk. */
    method Insert(node: Node)
      requires Valid()
      modifies `nodes
      ensures Valid() && multiset(nodes) == multiset(old(nodes)) + multiset{node}
    {
      OrderOk();
      nodes := Push(nodes, node, IsLess);
    }

    /** Advances the saved node as far as it goes; returns it if it moved. */
    method GetChunkSnapshot() returns (cur: Option<Node>, ghost popped: seq<Node>)
      requires Valid()
      modifies this
      ensures Valid() && Drains(multiset(old(nodes)), old(currentSavedNode), popped, multiset(nodes))
      ensures currentSavedNode == LastOr(popped, old(currentSavedNode))
      ensures cur == if popped == [] then None else Some(currentSavedNode)
    {
      OrderOk();
      ghost var h, saved := multiset(nodes), currentSavedNode;
      cur, popped := None, [];
      while |nodes| != 0 && IsAdjacent(currentSavedNode, nodes[0])
        invariant Valid() && Drained(h, saved, popped, multiset(nodes))
        invariant currentSavedNode == LastOr(popped, saved)
        invariant cur == if popped == [] then None else Some(currentSavedNode)
        decreases |nodes|
      {
        RootMinimal(nodes, IsLess);
        DrainedMore(h, saved, popped, multiset(nodes), nodes[0]);
        var top, rest := Pop(nodes, IsLess);
        popped := popped + [top];
        nodes := rest;
        currentSavedNode := top;
        cur := Some(top);
      }
      if nodes != [] {
        RootMinimal(nodes, IsLess);
      }
      DrainedStops(h, saved, popped, multiset(nodes));
    }
  }

  // ---------- Along a path ----------

  /** The heap holds exactly the nodes at the waiting positions of the path, once each. */
  ghost predicate Holding(h: multiset<Node>, p: seq<Node>, waiting: set<nat>) {
    && (forall i :: i in waiting ==> i < |p| && h[p[i]] == 1)
    && (forall n: Node :: n in h ==> exists i :: i in waiting && i < |p| && p[i] == n)
  }

  /** The positions after `k`. */
  function Later(s: set<nat>, k: nat): set<nat> {
    set i | i in s && i > k
  }

  /** How far the saved position moves: over finished positions, each adjacent to the one before. */
  function Advance(p: seq<Node>, finished: set<nat>, k: nat): (r: nat)
    requires k < |p|
    ensures k <= r < |p| && forall i :: k < i <= r ==> i in finished
    decreases |p| - k
  {
    if k + 1 < |p| && k + 1 in finished && IsAdjacent(p[k], p[k + 1]) then Advance(p, finished, k + 1) else k
  }

  lemma {:induction false} PathDistinct(p: seq<Node>, i: nat, j: nat)
    requires Path(p) && i < |p| && j < |p| && i != j
    ensures p[i] != p[j]
  {
    if i < j {
      Increasing(p, i, j);
    } else {
      Increasing(p, j, i);
    }
  }

  /** Where the minimum of the heap is not adjacent, the next position is not finished or not adjacent. */
  lemma {:induction false} FlushStops(p: seq<Node>, finished: set<nat>, k: nat, h: multiset<Node>, m: Node)
    requires Path(p) && k < |p| && Holding(h, p, Later(finished, k))
    requires m in h && Minimal(m, h, IsLess) && !IsAdjacent(p[k], m)
    ensures Advance(p, finished, k) == k
  {
    var j :| j in Later(finished, k) && j < |p| && p[j] == m;
    if k + 1 < |p| && k + 1 in finished && j != k + 1 {
      assert k + 1 in Later(finished, k);
      assert h[p[k + 1]] == 1 && !IsLess(p[k + 1], m);
      Increasing(p, k + 1, j);
    }
  }

  /** Taking one node out leaves the count of every other node. */
  lemma {:induction false} OtherCount(h: multiset<Node>, m: Node, n: Node)
    requires n != m
    ensures (h - multiset{m})[n] == h[n]
  {
  }

  lemma {:induction false} NoneLeft(h: multiset<Node>, m: Node)
    requires h[m] == 1
    ensures m !in h - multiset{m}
  {
  }

  /** Another waiting position still has its node. */
  lemma {:induction false} StillThere(h: multiset<Node>, p: seq<Node>, waiting: set<nat>, at: nat, i: nat)
    requires Path(p) && Holding(h, p, waiting) && at in waiting && i in waiting && i != at
    ensures i < |p| && (h - multiset{p[at]})[p[i]] == 1
  {
    PathDistinct(p, i, at);
    OtherCount(h, p[at], p[i]);
  }

  /** A node that is left has another waiting position. */
  lemma {:induction false} PositionLeft(h: multiset<Node>, p: seq<Node>, waiting: set<nat>, at: nat, n: Node) returns (i: nat)
    requires Holding(h, p, waiting) && at in waiting && n in h - multiset{p[at]}
    ensures i in waiting && i != at && i < |p| && p[i] == n
  {
    NoneLeft(h, p[at]);
    i :| i in waiting && i < |p| && p[i] == n;
  }

  lemma {:induction false} HoldingLess(h: multiset<Node>, p: seq<Node>, waiting: set<nat>, at: nat)
    requires Path(p) && Holding(h, p, waiting) && at in waiting
    ensures Holding(h - multiset{p[at]}, p, waiting - {at})
  {
    forall i | i in waiting - {at}
      ensures i < |p| && (h - multiset{p[at]})[p[i]] == 1
    {
      StillThere(h, p, waiting, at, i);
    }
    forall n: Node | n in h - multiset{p[at]}
      ensures exists i :: i in waiting - {at} && i < |p| && p[i] == n
    {
      var i := PositionLeft(h, p, waiting, at, n);
    }
  }

  lemma {:induction false} LaterLess(s: set<nat>, k: nat)
    ensures Later(s, k + 1) == Later(s, k) - {k + 1}
  {
  }

  /** A node adjacent to the saved one is the next position. */
  lemma {:induction false} TakesNext(p: seq<Node>, finished: set<nat>, k: nat, h: multiset<Node>, m: Node)
    requires Path(p) && k < |p| && Holding(h, p, Later(finished, k))
    requires m in h && IsAdjacent(p[k], m)
    ensures k + 1 < |p| && k + 1 in finished && p[k + 1] == m
    ensures Holding(h - multiset{m}, p, Later(finished, k + 1))
  {
    var j :| j in Later(finished, k) && j < |p| && p[j] == m;
    AdjacentIsNext(p, k, j);
    LaterLess(finished, k);
    HoldingLess(h, p, Later(finished, k), j);
  }

  /** A flush that takes nothing out leaves the saved node where it is. */
  lemma {:induction false} NothingTaken(p: seq<Node>, finished: set<nat>, k: nat, h: multiset<Node>)
    requires Path(p) && k < |p| && Holding(h, p, Later(finished, k))
    requires h == multiset{} || exists m :: m in h && Minimal(m, h, IsLess) && !IsAdjacent(p[k], m)
    ensures Advance(p, finished, k) == k
  {
    assert k + 1 in finished ==> k + 1 in Later(finished, k);
    assert k + 1 in Later(finished, k) ==> h[p[k + 1]] == 1;
    if h != multiset{} {
      var m :| m in h && Minimal(m, h, IsLess) && !IsAdjacent(p[k], m);
      FlushStops(p, finished, k, h, m);
    }
  }

  lemma {:induction false} DrainsOne(h: multiset<Node>, saved: Node, popped: seq<Node>, left: multiset<Node>)
    requires Drains(h, saved, popped, left) && popped != []
    ensures popped[0] in h && IsAdjacent(saved, popped[0]) && Drains(h - multiset{popped[0]}, popped[0], popped[1..], left)
    ensures LastOr(popped, saved) == LastOr(popped[1..], popped[0])
  {
  }

  /** A flush moves the saved node to exactly the position `Advance` gives, and leaves the rest waiting. */
  lemma {:induction false} FlushAdvances(p: seq<Node>, finished: set<nat>, k: nat, h: multiset<Node>, popped: seq<Node>, left: multiset<Node>)
    requires Path(p) && k < |p| && Holding(h, p, Later(finished, k))
    requires Drains(h, p[k], popped, left)
    ensures LastOr(popped, p[k]) == p[Advance(p, finished, k)]
    ensures Holding(left, p, Later(finished, Advance(p, finished, k)))
    decreases |popped|
  {
    if popped == [] {
      NothingTaken(p, finished, k, h);
    } else {
      var m := popped[0];
      DrainsOne(h, p[k], popped, left);
      TakesNext(p, finished, k, h, m);
      FlushAdvances(p, finished, k + 1, h - multiset{m}, popped[1..], left);
    }
  }

  // ---------- Every interleaving ----------

  /** A worker's chunk at some position of the path is inserted, or the background loop flushes. */
  datatype Event = Finish(at: nat) | Flush

  function Finished(events: seq<Event>): set<nat> {
    set e | e in events && e.Finish? :: e.at
  }

  /** Positions of chunks of this run, none finished twice. */
  predicate Proper(p: seq<Node>, events: seq<Event>) {
    && (forall i :: 0 <= i < |events| && events[i].Finish? ==> 0 < events[i].at < |p|)
    && (forall i, j :: 0 <= i < j < |events| && events[i].Finish? ==> events[i] != events[j])
  }

  datatype State = State(heap: multiset<Node>, saved: Node)

  /** What one event does to the heap and the saved node. */
  ghost predicate Moves(p: seq<Node>, e: Event, s: State, s': State)
    requires e.Finish? ==> e.at < |p|
  {
    match e
    case Finish(i) => s' == State(s.heap + multiset{p[i]}, s.saved)
    case Flush => exists popped :: Drains(s.heap, s.saved, popped, s'.heap) && s'.saved == LastOr(popped, s.saved)
  }

  /** The heap and the saved node after some events, from an empty heap and the first node of the path. */
  ghost predicate Reaches(p: seq<Node>, events: seq<Event>, s: State)
    requires p != [] && Proper(p, events)
  {
    if events == [] then s == State(multiset{}, p[0])
    else
      var before, e := events[..|events| - 1], events[|events| - 1];
      exists s0: State :: Reaches(p, before, s0) && Moves(p, e, s0, s)
  }

  /** The position the saved node should have: the reference the heap is compared with. */
  function Position(p: seq<Node>, events: seq<Event>): (k: nat)
    requires p != []
    ensures k < |p|
  {
    var n := |events|;
    if n == 0 then 0
    else if events[n - 1].Flush? then Advance(p, Finished(events[..n - 1]), Position(p, events[..n - 1]))
    else Position(p, events[..n - 1])
  }

  lemma {:induction false} PositionLast(p: seq<Node>, events: seq<Event>)
    requires p != [] && events != []
    ensures var n := |events| - 1;
            Position(p, events) ==
            if events[n].Flush? then Advance(p, Finished(events[..n]), Position(p, events[..n])) else Position(p, events[..n])
  {
  }

  lemma {:induction false} FinishedLast(events: seq<Event>)
    requires events != []
    ensures var n := |events| - 1;
            Finished(events) == if events[n].Finish? then Finished(events[..n]) + {events[n].at} else Finished(events[..n])
  {
    var n := |events| - 1;
    assert events == events[..n] + [events[n]];
  }

  lemma {:induction false} LastStep(p: seq<Node>, events: seq<Event>, s: State) returns (s0: State)
    requires p != [] && Proper(p, events) && events != [] && Reaches(p, events, s)
    ensures var n := |events| - 1; Reaches(p, events[..n], s0) && Moves(p, events[n], s0, s)
  {
    var n := |events| - 1;
    s0 :| Reaches(p, events[..n], s0) && Moves(p, events[n], s0, s);
  }

  /**
   * The saved node is the path's `k`-th, every position up to it is finished, and the heap holds exactly the
   * finished positions after it.
   */
  ghost predicate Agrees(p: seq<Node>, finished: set<nat>, k: nat, s: State) {
    && k < |p| && s.saved == p[k] && (forall i :: 0 < i <= k ==> i in finished)
    && Holding(s.heap, p, Later(finished, k))
  }

  lemma {:induction false} AfterFinish(p: seq<Node>, finished: set<nat>, k: nat, s: State, at: nat)
    requires Path(p) && Agrees(p, finished, k, s) && at < |p| && at !in finished && 0 < at
    ensures Agrees(p, finished + {at}, k, State(s.heap + multiset{p[at]}, s.saved))
  {
    assert Later(finished + {at}, k) == Later(finished, k) + {at};
    HoldingMore(s.heap, p, Later(finished, k), at);
  }

  lemma {:induction false} HoldingMore(h: multiset<Node>, p: seq<Node>, waiting: set<nat>, at: nat)
    requires Path(p) && Holding(h, p, waiting) && at !in waiting && at < |p|
    ensures Holding(h + multiset{p[at]}, p, waiting + {at})
  {
    if p[at] in h {
      var i :| i in waiting && i < |p| && p[i] == p[at];
      PathDistinct(p, i, at);
    }
    forall i | i in waiting + {at}
      ensures i < |p| && (h + multiset{p[at]})[p[i]] == 1
    {
      if i != at {
        PathDistinct(p, i, at);
      }
    }
  }

  lemma {:induction false} AfterFlush(p: seq<Node>, finished: set<nat>, k: nat, s: State, popped: seq<Node>, left: multiset<Node>)
    requires Path(p) && Agrees(p, finished, k, s) && Drains(s.heap, s.saved, popped, left)
    ensures Agrees(p, finished, Advance(p, finished, k), State(left, LastOr(popped, s.saved)))
  {
    FlushAdvances(p, finished, k, s.heap, popped, left);
  }

  lemma {:induction false} SafeStep(p: seq<Node>, finished: set<nat>, k: nat, e: Event, s: State, s': State)
    requires Path(p) && Agrees(p, finished, k, s)
    requires e.Finish? ==> 0 < e.at < |p| && e.at !in finished
    requires Moves(p, e, s, s')
    ensures Agrees(p, if e.Finish? then finished + {e.at} else finished, if e.Flush? then Advance(p, finished, k) else k, s')
  {
    if e.Finish? {
      AfterFinish(p, finished, k, s, e.at);
    } else {
      var popped :| Drains(s.heap, s.saved, popped, s'.heap) && s'.saved == LastOr(popped, s.saved);
      AfterFlush(p, finished, k, s, popped, s'.heap);
    }
  }

  /** A position that is finished last was not finished before. */
  lemma {:induction false} FinishedOnce(p: seq<Node>, events: seq<Event>)
    requires Proper(p, events) && events != [] && events[|events| - 1].Finish?
    ensures events[|events| - 1].at !in Finished(events[..|events| - 1])
  {
    var n := |events| - 1;
    forall i | 0 <= i < n && events[i].Finish?
      ensures events[i].at != events[n].at
    {
      assert events[i] != events[n];
    }
  }

  /**
   * Over every interleaving of finished chunks and flushes, the checkpoint agrees with the reference position: every
   * chunk up to the saved node has been inserted, and the heap holds exactly the inserted chunks after it.
   */
  lemma {:induction false} CheckpointSafe(p: seq<Node>, events: seq<Event>, s: State)
    requires Path(p) && p != [] && Proper(p, events) && Reaches(p, events, s)
    ensures Agrees(p, Finished(events), Position(p, events), s)
  {
    if events != [] {
      var n := |events| - 1;
      var s0 := LastStep(p, events, s);
      CheckpointSafe(p, events[..n], s0);
      FinishedLast(events);
      PositionLast(p, events);
      if events[n].Finish? {
        FinishedOnce(p, events);
      }
      SafeStep(p, Finished(events[..n]), Position(p, events[..n]), events[n], s0, s);
    }
  }

  /** Every group but the last of a table has the announced number of chunks. */
  predicate FullGroups(p: seq<Node>) {
    forall i :: 0 <= i < |p| - 1 ==>
      (p[i].id.table == p[i + 1].id.table && !SameGroup(p[i], p[i + 1]) ==> p[i].id.index + 1 == p[i].id.count)
  }

  /**
   * After a flush the saved node stands before the first chunk of the path that is not finished, or at the last
   * chunk of a group that came out short; with groups of the announced size it is the longest finished prefix.
   */
  lemma {:induction false} CheckpointProgress(p: seq<Node>, events: seq<Event>, s: State)
    requires Path(p) && p != [] && events != [] && Proper(p, events) && Reaches(p, events, s)
    requires events[|events| - 1].Flush?
    ensures var k := Position(p, events);
            && s.saved == p[k]
            && (k + 1 == |p| || k + 1 !in Finished(events) || !IsAdjacent(p[k], p[k + 1]))
            && (FullGroups(p) ==> k + 1 == |p| || k + 1 !in Finished(events))
  {
    CheckpointSafe(p, events, s);
    FinishedLast(events);
    var before := events[..|events| - 1];
    assert Finished(events) == Finished(before);
    var k := Position(p, events);
    assert k == Advance(p, Finished(before), Position(p, before));
    AdvanceStops(p, Finished(before), Position(p, before));
    if k + 1 < |p| {
      NextIsAdjacent(p, k);
    }
  }

  lemma {:induction false} AdvanceStops(p: seq<Node>, finished: set<nat>, k: nat)
    requires k < |p|
    ensures var r := Advance(p, finished, k);
            r + 1 == |p| || r + 1 !in finished || !IsAdjacent(p[r], p[r + 1])
    decreases |p| - k
  {
    if k + 1 < |p| && k + 1 in finished && IsAdjacent(p[k], p[k + 1]) {
      AdvanceStops(p, finished, k + 1);
    }
  }

  /** A group that came out short stops the checkpoint for good: no run goes past its last chunk. */
  lemma {:induction false} ShortGroupStalls(p: seq<Node>, events: seq<Event>, i: nat)
    requires Path(p) && Proper(p, events) && i + 1 < |p|
    requires p[i].id.table == p[i + 1].id.table && !SameGroup(p[i], p[i + 1]) && !LastOfBucket(p[i])
    ensures Position(p, events) <= i
  {
    NextIsAdjacent(p, i);
    if events != [] {
      var n := |events| - 1;
      ShortGroupStalls(p, events[..n], i);
      if events[n].Flush? {
        AdvanceBlocked(p, Finished(events[..n]), Position(p, events[..n]), i);
      }
    }
  }

  lemma {:induction false} AdvanceBlocked(p: seq<Node>, finished: set<nat>, k: nat, i: nat)
    requires k <= i && i + 1 < |p| && !IsAdjacent(p[i], p[i + 1])
    ensures Advance(p, finished, k) <= i
    decreases |p| - k
  {
    if k < i && k + 1 in finished && IsAdjacent(p[k], p[k + 1]) {
      AdvanceBlocked(p, finished, k + 1, i);
    }
  }
}
