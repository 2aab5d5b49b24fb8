/**
 * The comparison pipeline over the chunks that the producers emit (sync_diff_inspector/diff.go).
 */
module PlannedRuns {
  import opened Keys
  import opened Cover
  import opened Nodes
  import opened FileNames
  import opened Protocol
  import opened Histories

  lemma {:induction false} SmallNumbers(origins: seq<Origin>, c: Node)
    requires AllOk(origins) && 0 <= c.id.table < |origins| && Fits(origins[c.id.table], Own(c)) && WellFormed(c) && c != INIT_NODE
    ensures Numbered(c.id)
  {
  }

  /** Histories have the shape that the pipeline needs. */
  lemma {:induction false} ProducedShape(setup: Setup, origins: seq<Origin>, nodes: seq<Node>)
    requires AllOk(origins) && |setup.tables| == |origins| && Produced(origins, nodes)
    ensures Shape(setup, nodes)
  {
    forall i | 0 < i < |nodes|
      ensures Emitted(setup, nodes[i])
    {
      assert nodes[i] == nodes[1..][i - 1];
      PathAt(nodes, i);
      SmallNumbers(origins, nodes[i]);
    }
  }

  /** The first run, over what the producers emit. */
  ghost predicate Starts(setup: Setup, origins: seq<Origin>, p: Point)
    requires AllOk(origins)
  {
    Init(setup, p) && exists rand: Samplers :: GoodSamplers(origins, rand) && p.h.nodes == [INIT_NODE] + Onward(origins, rand, INIT_NODE)
  }

  /** A step of the pipeline, in which a new run emits what the producers give behind the saved chunk. */
  ghost predicate Goes(setup: Setup, origins: seq<Origin>, p: Point, e: Event, p': Point)
    requires AllOk(origins)
  {
    && Next(setup, p, e, p')
    && (e.Crash? ==> exists rand: Samplers :: GoodSamplers(origins, rand) && FromSaved(origins, rand, p, e.more))
  }

  predicate FromSaved(origins: seq<Origin>, rand: Samplers, p: Point, more: seq<Node>)
    requires AllOk(origins)
  {
    && p.h.at < |p.h.nodes| && (p.h.nodes[p.h.at] != INIT_NODE ==> Planned(origins, [p.h.nodes[p.h.at]]))
    && more == Onward(origins, rand, p.h.nodes[p.h.at])
  }

  ghost predicate Leads(setup: Setup, origins: seq<Origin>, events: seq<Event>, p: Point)
    requires AllOk(origins)
    decreases |events|
  {
    if events == [] then Starts(setup, origins, p)
    else
      var before, e := events[..|events| - 1], events[|events| - 1];
      exists p0 :: Leads(setup, origins, before, p0) && Goes(setup, origins, p0, e, p)
  }

  lemma {:induction false} FirstProduced(origins: seq<Origin>, rand: Samplers)
    requires AllOk(origins) && GoodSamplers(origins, rand)
    ensures var nodes := [INIT_NODE] + Onward(origins, rand, INIT_NODE); Produced(origins, nodes) && Ends(nodes, |origins|)
  {
    var first := [INIT_NODE];
    assert first[1..] == [] && first[..1] == first;
    assert Produced(origins, first);
    HistoryContinues(origins, rand, first, 0);
  }

  lemma {:induction false} StartsProduced(setup: Setup, origins: seq<Origin>, p: Point)
    requires AllOk(origins) && Starts(setup, origins, p)
    ensures Produced(origins, p.h.nodes) && Ends(p.h.nodes, |origins|)
  {
    var rand: Samplers :| GoodSamplers(origins, rand) && p.h.nodes == [INIT_NODE] + Onward(origins, rand, INIT_NODE);
    FirstProduced(origins, rand);
  }

  lemma {:induction false} NextNodes(setup: Setup, p: Point, e: Event, p': Point)
    requires Next(setup, p, e, p')
    ensures if e.Crash? then p.h.at < |p.h.nodes| && p'.h.nodes == p.h.nodes[..p.h.at + 1] + e.more else p'.h.nodes == p.h.nodes
  {
  }

  lemma {:induction false} GoesProduced(setup: Setup, origins: seq<Origin>, p: Point, e: Event, p': Point)
    requires AllOk(origins) && Goes(setup, origins, p, e, p') && Produced(origins, p.h.nodes) && Ends(p.h.nodes, |origins|)
    ensures Produced(origins, p'.h.nodes) && Ends(p'.h.nodes, |origins|)
  {
    NextNodes(setup, p, e, p');
    if e.Crash? {
      var rand: Samplers :| GoodSamplers(origins, rand) && FromSaved(origins, rand, p, e.more);
      ProducedPrefix(origins, p.h.nodes, p.h.at);
      HistoryContinues(origins, rand, p.h.nodes, p.h.at);
    }
  }

  /** Runs over the producers' chunks are runs of the pipeline, and all that they emit stays a history up to the end. */
  lemma {:induction false} LeadsReachable(setup: Setup, origins: seq<Origin>, events: seq<Event>, p: Point)
    requires AllOk(origins) && Leads(setup, origins, events, p)
    ensures Reachable(setup, events, p) && Produced(origins, p.h.nodes) && Ends(p.h.nodes, |origins|)
    decreases |events|
  {
    if events == [] {
      StartsProduced(setup, origins, p);
    } else {
      var before, e := events[..|events| - 1], events[|events| - 1];
      var p0 :| Leads(setup, origins, before, p0) && Goes(setup, origins, p0, e, p);
      LeadsReachable(setup, origins, before, p0);
      GoesProduced(setup, origins, p0, e, p);
    }
  }

  lemma {:induction false} RestartShape(setup: Setup, origins: seq<Origin>, nodes: seq<Node>, at: nat, rand: Samplers) returns (more: seq<Node>)
    requires AllOk(origins) && |setup.tables| == |origins| && GoodSamplers(origins, rand) && Produced(origins, nodes) && at < |nodes|
    ensures nodes[at] != INIT_NODE ==> Planned(origins, [nodes[at]])
    ensures more == Onward(origins, rand, nodes[at]) && Shape(setup, nodes[..at + 1] + more)
  {
    ProducedPrefix(origins, nodes, at);
    more := Onward(origins, rand, nodes[at]);
    HistoryContinues(origins, rand, nodes, at);
    ProducedShape(setup, origins, nodes[..at + 1] + more);
  }

  /** What every run of the pipeline keeps, for a restart. */
  lemma {:induction false} SavedInPlace(setup: Setup, events: seq<Event>, p: Point)
    requires SetupOk(setup) && Reachable(setup, events, p)
    ensures p.h.at < |p.h.nodes| && !RemovalFails(setup, p.m.files)
    ensures From(p.m.saved) == p.h.nodes[p.h.at]
  {
    Always(setup, events, p);
    NothingFails(setup, events, p);
  }

  /** Wherever the pipeline crashes, the next run can go on from what was saved, whatever keys it samples. */
  lemma {:induction false} Restarts(setup: Setup, origins: seq<Origin>, events: seq<Event>, p: Point, rand: Samplers) returns (more: seq<Node>)
    requires AllOk(origins) && |setup.tables| == |origins| && SetupOk(setup) && GoodSamplers(origins, rand)
    requires Leads(setup, origins, events, p)
    ensures FromSaved(origins, rand, p, more) && Allowed(setup, p, Crash(more))
    ensures From(p.m.saved) == p.h.nodes[p.h.at]
  {
    LeadsReachable(setup, origins, events, p);
    SavedInPlace(setup, events, p);
    more := RestartShape(setup, origins, p.h.nodes, p.h.at, rand);
  }

  /**
   * In every state of every such run, after any number of crashes: the chunks in the checkpoint and those of the current
   * run together select every row without NULL of every table exactly once, when bucket bounds are sorted.
   */
  lemma {:induction false} EveryRowPlanned(setup: Setup, origins: seq<Origin>, events: seq<Event>, p: Point, t: nat, row: RowKey)
    requires AllOk(origins) && Leads(setup, origins, events, p)
    requires t < |origins| && RowFits(origins[t], row)
    ensures Widths(OfTable(p.h.nodes, t), |row|) && Hits(OfTable(p.h.nodes, t), row) == 1
  {
    LeadsReachable(setup, origins, events, p);
    HistoryCovers(origins, p.h.nodes, t, row);
  }
}
