/**
 * The chunks of all tables (sync_diff_inspector/source/chunks_iter.go): each table's chunks get its table index, a table
 * that is not compared gets one empty chunk, and a resumed run goes on in the saved chunk's table.
 */
module ChunksIter {
  import opened Sequences
  import opened Wrappers
  import opened Cover
  import opened Chunks
  import opened Nodes
  import opened Producers

  /** What the splitter of one table gives, or that the table's data is not compared. */
  datatype Source = Skipped | Split(chunks: seq<Node>)

  function EmptyChunk(t: int): Node {
    Node(ChunkID(t, 0, 0, 0, 0), Interval(None, None), true, true)
  }

  function Placed(chunks: seq<Node>, t: int): seq<Node> {
    seq(|chunks|, i requires 0 <= i < |chunks| => chunks[i].(id := chunks[i].id.(table := t)))
  }

  function OfSource(s: Source, t: int): seq<Node> {
    if s.Skipped? then [EmptyChunk(t)] else Placed(s.chunks, t)
  }

  /** The chunks of the tables from `t` on. */
  function Plan(tables: seq<Source>, t: nat): seq<Node>
    requires t <= |tables|
    decreases |tables| - t
  {
    if t == |tables| then [] else OfSource(tables[t], t) + Plan(tables, t + 1)
  }

  /** The plan of a run: from the first table, or behind a saved chunk, with `resumed` the rest of its table. */
  function RunPlan(tables: seq<Source>, start: Option<Node>, skipTable: bool, resumed: seq<Node>): seq<Node>
    requires start.Some? ==> 0 <= start.value.id.table < |tables|
  {
    match start
    case None => Plan(tables, 0)
    case Some(saved) =>
      var behind := Plan(tables, saved.id.table + 1);
      if skipTable then behind else Placed(resumed, saved.id.table) + behind
  }

  /** The producing goroutine; the groups of different tables may arrive in any order. */
  method ProduceChunks(tables: seq<Source>, start: Option<Node>, skipTable: bool, resumed: seq<Node>) returns (sent: seq<Node>)
    requires start.Some? ==> 0 <= start.value.id.table < |tables|
    ensures sent == RunPlan(tables, start, skipTable, resumed)
  {
    sent := [];
    var nextTableIndex := 0;
    if start.Some? {
      var curIndex := start.value.id.table;
      nextTableIndex := curIndex + 1;
      if !skipTable {
        sent := SendAll(resumed, curIndex);
      }
    }
    ghost var first, before := nextTableIndex, sent;
    while nextTableIndex < |tables|
      invariant first <= nextTableIndex <= |tables|
      invariant before + Plan(tables, first) == sent + Plan(tables, nextTableIndex)
    {
      ghost var was := sent;
      if tables[nextTableIndex].Skipped? {
        sent := sent + [EmptyChunk(nextTableIndex)];
      } else {
        var chunks := SendAll(tables[nextTableIndex].chunks, nextTableIndex);
        sent := sent + chunks;
      }
      assert sent == was + OfSource(tables[nextTableIndex], nextTableIndex);
      Associate(was, OfSource(tables[nextTableIndex], nextTableIndex), Plan(tables, nextTableIndex + 1));
      nextTableIndex := nextTableIndex + 1;
    }
    assert sent + [] == sent && [] + Plan(tables, first) == Plan(tables, first);
  }

  /** Gives each chunk of one table its table index. */
  method SendAll(chunks: seq<Node>, t: int) returns (sent: seq<Node>)
    ensures sent == Placed(chunks, t)
  {
    sent := [];
    for i := 0 to |chunks|
      invariant sent == Placed(chunks[..i], t)
    {
      sent := sent + [chunks[i].(id := chunks[i].id.(table := t))];
    }
    assert chunks[..|chunks|] == chunks;
  }

  /** The chunk of a table that is not compared: the table's first and last, by its flags, and numbered by zeros. */
  lemma {:induction false} SkippedChunk(tables: seq<Source>, t: nat)
    requires t < |tables| && tables[t].Skipped?
    ensures Plan(tables, t) == [Node(ChunkID(t, 0, 0, 0, 0), Interval(None, None), true, true)] + Plan(tables, t + 1)
  {
  }

  // ---------- The plan is a path ----------

  predicate InTableZero(chunks: seq<Node>) {
    forall i :: 0 <= i < |chunks| ==> chunks[i].id.table == 0 && chunks[i].id.left >= 0
  }

  /** A whole table, from its first chunk to its last. */
  predicate Whole(s: Source) {
    s.Split? ==>
      && Path(s.chunks) && s.chunks != [] && InTableZero(s.chunks)
      && FirstOfTable(s.chunks[0]) && LastOfTable(s.chunks[|s.chunks| - 1])
  }

  lemma {:induction false} PlacedPath(chunks: seq<Node>, t: int)
    requires Path(chunks) && InTableZero(chunks)
    ensures Path(Placed(chunks, t))
  {
    var p := Placed(chunks, t);
    forall i | 0 <= i < |p|
      ensures WellFormed(p[i]) && (i + 1 < |p| ==> Continues(p[i], p[i + 1]))
    {
      PathAt(chunks, i);
    }
    PathFrom(p);
  }

  /** One table: a path from its first chunk to its last, all with its index. */
  lemma {:induction false} SourcePath(s: Source, t: nat)
    requires Whole(s)
    ensures var p := OfSource(s, t);
            && Path(p) && p != [] && FirstOfTable(p[0]) && LastOfTable(p[|p| - 1])
            && p[0].id.table == t && p[|p| - 1].id.table == t
  {
    if s.Split? {
      PlacedPath(s.chunks, t);
    }
  }

  /** One whole table behind the end of the one before. */
  lemma {:induction false} TableFollows(prev: Node, s: Source, t: nat)
    requires Whole(s) && WellFormed(prev) && LastOfTable(prev) && prev.id.table == t - 1
    ensures var own := [prev] + OfSource(s, t);
            && Path(own) && |own| > 1
            && WellFormed(own[|own| - 1]) && LastOfTable(own[|own| - 1]) && own[|own| - 1].id.table == t
  {
    var p := OfSource(s, t);
    SourcePath(s, t);
    PathAt(p, |p| - 1);
    PathAppend([prev], p);
  }

  /** The tables from `t` on follow a node that ends table `t` - 1. */
  lemma {:induction false} PlanPath(tables: seq<Source>, t: nat, prev: Node)
    requires t <= |tables| && forall i :: t <= i < |tables| ==> Whole(tables[i])
    requires WellFormed(prev) && LastOfTable(prev) && prev.id.table == t - 1
    ensures Path([prev] + Plan(tables, t))
    decreases |tables| - t
  {
    if t < |tables| {
      var own := [prev] + OfSource(tables[t], t);
      var rest := Plan(tables, t + 1);
      TableFollows(prev, tables[t], t);
      PlanPath(tables, t + 1, own[|own| - 1]);
      JoinSaved(own, rest);
      Associate([prev], OfSource(tables[t], t), rest);
    }
  }

  /** The tables from `t` on follow a path that ends table `t` - 1. */
  lemma {:induction false} PlanFollows(tables: seq<Source>, t: nat, own: seq<Node>)
    requires t <= |tables| && forall i :: t <= i < |tables| ==> Whole(tables[i])
    requires Path(own) && own != [] && LastOfTable(own[|own| - 1]) && own[|own| - 1].id.table == t - 1
    ensures Path(own + Plan(tables, t))
  {
    PathAt(own, |own| - 1);
    PlanPath(tables, t, own[|own| - 1]);
    JoinSaved(own, Plan(tables, t));
  }

  /** A fresh run's plan is a path from before the first table to the end of the last one. */
  lemma {:induction false} FreshPlan(tables: seq<Source>)
    requires forall i :: 0 <= i < |tables| ==> Whole(tables[i])
    ensures Path([INIT_NODE] + RunPlan(tables, None, false, []))
  {
    PlanPath(tables, 0, INIT_NODE);
  }

  /** A resumed run's plan is a path from the saved chunk on, when the rest of its table follows it in its own table. */
  lemma {:induction false} ResumedPlan(tables: seq<Source>, saved: Node, resumed: seq<Node>)
    requires forall i :: 0 <= i < |tables| ==> Whole(tables[i])
    requires 0 <= saved.id.table < |tables| && InTableZero(resumed)
    requires Path([saved.(id := saved.id.(table := 0))] + resumed)
    requires LastOfTable(if resumed == [] then saved else resumed[|resumed| - 1])
    ensures Path([saved] + RunPlan(tables, Some(saved), false, resumed))
  {
    var t := saved.id.table;
    var there := Placed(resumed, t);
    RestPath(saved, resumed);
    PlanFollows(tables, t + 1, [saved] + there);
    Associate([saved], there, Plan(tables, t + 1));
  }

  /** So is the plan behind an empty chunk, whose table is not looked at again. */
  lemma {:induction false} SkippedPlan(tables: seq<Source>, saved: Node)
    requires forall i :: 0 <= i < |tables| ==> Whole(tables[i])
    requires 0 <= saved.id.table < |tables| && WellFormed(saved) && LastOfTable(saved)
    ensures Path([saved] + RunPlan(tables, Some(saved), true, []))
  {
    PlanPath(tables, saved.id.table + 1, saved);
  }

  lemma {:induction false} RestPath(saved: Node, resumed: seq<Node>)
    requires InTableZero(resumed) && 0 <= saved.id.table
    requires Path([saved.(id := saved.id.(table := 0))] + resumed)
    ensures Path([saved] + Placed(resumed, saved.id.table))
  {
    var zero := [saved.(id := saved.id.(table := 0))] + resumed;
    var p := [saved] + Placed(resumed, saved.id.table);
    forall i | 0 <= i < |p|
      ensures WellFormed(p[i]) && (i + 1 < |p| ==> Continues(p[i], p[i + 1]))
    {
      PathAt(zero, i);
    }
    PathFrom(p);
  }

  // ---------- From the producers ----------

  /** A fresh bucket run or random run is a whole table. */
  lemma {:induction false} FreshWhole(st: Stats, rand: Sampler, chunkCnt: nat)
    requires Setting(st, rand)
    ensures !FromBuckets(st, rand, 0, 0, 0, None).failed ==> Whole(Split(FromBuckets(st, rand, 0, 0, 0, None).chunks))
    ensures Whole(Split(FromRandom(chunkCnt, rand)))
  {
    FreshBuckets(st, rand);
    FromRandomEmits(chunkCnt, rand, st.width);
    RandomLefts(FromRandom(chunkCnt, rand), st.width);
  }

  lemma {:induction false} RandomLefts(chunks: seq<Node>, width: nat)
    requires EmitsRandom(chunks, width) && chunks[0].id.left >= 0
    ensures InTableZero(chunks)
  {
    LeftsGrow(chunks, width);
  }

  lemma {:induction false} LeftsGrow(chunks: seq<Node>, width: nat)
    requires Path(chunks) && OneTable(chunks, width) && (chunks != [] ==> chunks[0].id.left >= 0)
    ensures InTableZero(chunks)
  {
    forall i | 0 <= i < |chunks|
      ensures chunks[i].id.left >= 0
    {
      if i > 0 {
        AlongPath(chunks, 0, i);
        PathAt(chunks, 0);
      }
    }
  }

  lemma {:induction false} FreshBuckets(st: Stats, rand: Sampler)
    requires Setting(st, rand)
    ensures !FromBuckets(st, rand, 0, 0, 0, None).failed ==> Whole(Split(FromBuckets(st, rand, 0, 0, 0, None).chunks))
  {
    var run := FromBuckets(st, rand, 0, 0, 0, None);
    FromBucketsEmits(st, rand, 0, 0, 0, None);
    EmitsOneTable(run, st);
    LeftsGrow(run.chunks, st.width);
  }
}
