/**
 * What the report (sync_diff_inspector/report/report.go) says of a table as a whole, over runs of the pipeline with crashes:
 * whether it is equal, and how many rows were counted.
 */
module Tallies {
  import opened Wrappers
  import opened Chunks
  import opened Nodes
  import opened Reports
  import opened Protocol

  // ---------- Sums ----------

  /** What the verdicts of one table add up to, over the positions from `lo` on and before `hi`. */
  function Sum(setup: Setup, nodes: seq<Node>, seen: Seen, t: Table, count: Verdict -> int, lo: nat, hi: nat): int
    decreases hi - lo
  {
    if hi <= lo then 0 else Part(setup, nodes, seen, t, count, lo) + Sum(setup, nodes, seen, t, count, lo + 1, hi)
  }

  function Part(setup: Setup, nodes: seq<Node>, seen: Seen, t: Table, count: Verdict -> int, i: nat): int {
    if i < |nodes| && i in seen && Emitted(setup, nodes[i]) && TableOf(setup, nodes[i]) == t then count(seen[i].verdict) else 0
  }

  /** Another verdict adds to the sums of its own table. */
  lemma {:induction false} SumMore(setup: Setup, nodes: seq<Node>, seen: Seen, t: Table, count: Verdict -> int, lo: nat, hi: nat, i: nat, f: Finding)
    requires i < |nodes| && i !in seen && Emitted(setup, nodes[i])
    ensures Sum(setup, nodes, seen[i := f], t, count, lo, hi) ==
            Sum(setup, nodes, seen, t, count, lo, hi) + if lo <= i < hi && TableOf(setup, nodes[i]) == t then count(f.verdict) else 0
    decreases hi - lo
  {
    if lo < hi {
      SumMore(setup, nodes, seen, t, count, lo + 1, hi, i, f);
    }
  }

  lemma {:induction false} SumNothing(setup: Setup, nodes: seq<Node>, seen: Seen, t: Table, count: Verdict -> int, lo: nat, hi: nat)
    requires forall i :: i in seen ==> i < lo
    ensures Sum(setup, nodes, seen, t, count, lo, hi) == 0
    decreases hi - lo
  {
    if lo < hi {
      SumNothing(setup, nodes, seen, t, count, lo + 1, hi);
    }
  }

  function Ups(v: Verdict): int { v.upCount }

  function Downs(v: Verdict): int { v.downCount }

  /** The rows counted for a table in the current run. */
  function RunSum(setup: Setup, h: History, t: Table, count: Verdict -> int): int {
    Sum(setup, h.nodes, h.seen, t, count, h.from + 1, |h.nodes|)
  }

  // ---------- The invariant ----------

  /** The report has every table: as unequal if something was found or loaded, and with the sums of the current run. */
  ghost predicate Tallied(setup: Setup, h: History, r: Results) {
    && (forall t: Table :: t in r <==> t in setup.tables)
    && (forall t: Table :: t in r ==>
          && (r[t].dataEqual <==> !Unequal(setup, h, t))
          && r[t].upCount == RunSum(setup, h, t, Ups) && r[t].downCount == RunSum(setup, h, t, Downs))
  }

  /** A snapshot has these tables as unequal, and no rows counted. */
  ghost predicate Marked(setup: Setup, r: Results, unequal: set<Table>) {
    && (forall t: Table :: t in unequal ==> t in r)
    && (forall t: Table :: t in r ==> t in setup.tables && (r[t].dataEqual <==> t !in unequal) && r[t].upCount == 0 == r[t].downCount)
  }

  /** Every table with a chunk up to a position that differed. */
  ghost predicate Covers(setup: Setup, h: History, k: nat, unequal: set<Table>) {
    forall i: nat :: 0 < i < |h.nodes| && i <= k && Emitted(setup, h.nodes[i]) && Differs(h.seen, i) ==> TableOf(setup, h.nodes[i]) in unequal
  }

  ghost predicate SavedMarks(setup: Setup, h: History, saved: Option<Saved>) {
    && (saved.None? ==> h.kept == {})
    && (saved.Some? ==> saved.value.report.Some? && Marked(setup, saved.value.report.value, h.kept))
    && Covers(setup, h, h.at, h.kept)
  }

  ghost predicate PendingMarks(setup: Setup, h: History, pending: Pending) {
    pending.Snapped? ==> pending.report.Some? && Marked(setup, pending.report.value, h.taken) && Covers(setup, h, h.pos, h.taken)
  }

  ghost predicate Tally(setup: Setup, p: Point) {
    Tallied(setup, p.h, p.m.report) && p.h.from <= p.h.at && SavedMarks(setup, p.h, p.m.saved) && PendingMarks(setup, p.h, p.m.pending)
  }

  // ---------- Every step keeps it ----------

  lemma {:induction false} UnequalSame(setup: Setup, h: History, h': History, t: Table)
    requires h'.nodes == h.nodes && h'.seen == h.seen && h'.was == h.was
    ensures Unequal(setup, h', t) <==> Unequal(setup, h, t)
  {
  }

  lemma {:induction false} TalliedSame(setup: Setup, h: History, h': History, r: Results)
    requires Tallied(setup, h, r) && h'.nodes == h.nodes && h'.seen == h.seen && h'.was == h.was && h'.from == h.from
    ensures Tallied(setup, h', r)
  {
    forall t: Table
      ensures Unequal(setup, h', t) <==> Unequal(setup, h, t)
    {
      UnequalSame(setup, h, h', t);
    }
  }

  /** Steps that compare nothing and change no snapshot. */
  lemma {:induction false} KeepSame(setup: Setup, p: Point, p': Point)
    requires Tally(setup, p) && p'.m.report == p.m.report && p'.m.saved == p.m.saved
    requires p'.h.nodes == p.h.nodes && p'.h.seen == p.h.seen && p'.h.from == p.h.from && p'.h.at == p.h.at
    requires p'.h.was == p.h.was && p'.h.taken == p.h.taken && p'.h.kept == p.h.kept
    requires p'.m.pending.Snapped? ==> p'.m.pending == p.m.pending && p'.h.pos == p.h.pos
    ensures Tally(setup, p')
  {
    TalliedSame(setup, p.h, p'.h, p.m.report);
  }

  lemma {:induction false} FoundMore(setup: Setup, h: History, i: nat, f: Finding, t: Table)
    requires 0 < i < |h.nodes| && i !in h.seen && Emitted(setup, h.nodes[i])
    ensures var h' := h.(seen := h.seen[i := f]);
            Unequal(setup, h', t) <==> Unequal(setup, h, t) || (!f.verdict.equal && TableOf(setup, h.nodes[i]) == t)
  {
    var h' := h.(seen := h.seen[i := f]);
    if !f.verdict.equal && TableOf(setup, h.nodes[i]) == t {
      assert Differs(h'.seen, i);
    }
    if j: nat :| 0 < j < |h.nodes| && Emitted(setup, h.nodes[j]) && Differs(h.seen, j) && TableOf(setup, h.nodes[j]) == t {
      assert Differs(h'.seen, j);
    }
    if j: nat :| 0 < j < |h.nodes| && Emitted(setup, h.nodes[j]) && Differs(h'.seen, j) && TableOf(setup, h.nodes[j]) == t && j != i {
      assert Differs(h.seen, j);
    }
  }

  lemma {:induction false} ConsumeTallied(setup: Setup, h: History, r: Results, i: nat, f: Finding)
    requires Tallied(setup, h, r) && h.from < i < |h.nodes| && i !in h.seen && Emitted(setup, h.nodes[i]) && TableOf(setup, h.nodes[i]) in r
    ensures var t := TableOf(setup, h.nodes[i]);
            Tallied(setup, h.(seen := h.seen[i := f]), r[t := WithVerdict(r[t], f.verdict, h.nodes[i].id)])
  {
    var h', t := h.(seen := h.seen[i := f]), TableOf(setup, h.nodes[i]);
    forall u: Table
      ensures Unequal(setup, h', u) <==> Unequal(setup, h, u) || (!f.verdict.equal && t == u)
      ensures RunSum(setup, h', u, Ups) == RunSum(setup, h, u, Ups) + if t == u then f.verdict.upCount else 0
      ensures RunSum(setup, h', u, Downs) == RunSum(setup, h, u, Downs) + if t == u then f.verdict.downCount else 0
    {
      ConsumeTable(setup, h, h', i, f, u);
    }
  }

  lemma {:induction false} ConsumeTable(setup: Setup, h: History, h': History, i: nat, f: Finding, u: Table)
    requires h.from < i < |h.nodes| && i !in h.seen && Emitted(setup, h.nodes[i]) && h' == h.(seen := h.seen[i := f])
    ensures Unequal(setup, h', u) <==> Unequal(setup, h, u) || (!f.verdict.equal && TableOf(setup, h.nodes[i]) == u)
    ensures RunSum(setup, h', u, Ups) == RunSum(setup, h, u, Ups) + if TableOf(setup, h.nodes[i]) == u then f.verdict.upCount else 0
    ensures RunSum(setup, h', u, Downs) == RunSum(setup, h, u, Downs) + if TableOf(setup, h.nodes[i]) == u then f.verdict.downCount else 0
  {
    FoundMore(setup, h, i, f, u);
    SumMore(setup, h.nodes, h.seen, u, Ups, h.from + 1, |h.nodes|, i, f);
    SumMore(setup, h.nodes, h.seen, u, Downs, h.from + 1, |h.nodes|, i, f);
  }

  lemma {:induction false} CoversStill(setup: Setup, h: History, i: nat, f: Finding, k: nat, unequal: set<Table>)
    requires Covers(setup, h, k, unequal) && i > k
    ensures Covers(setup, h.(seen := h.seen[i := f]), k, unequal)
  {
    forall j: nat | 0 < j < |h.nodes| && j <= k && Emitted(setup, h.nodes[j]) && Differs(h.seen[i := f], j)
      ensures TableOf(setup, h.nodes[j]) in unequal
    {
      assert Differs(h.seen, j);
    }
  }

  lemma {:induction false} TallyConsume(setup: Setup, p: Point, p': Point, i: nat, f: Finding)
    requires Inv(setup, p) && Tally(setup, p) && Next(setup, p, Consume(i, f), p')
    ensures Tally(setup, p')
  {
    assert i > p.h.pos by {
      assert i !in Positions(p.h.pos);
    }
    ConsumeTallied(setup, p.h, p.m.report, i, f);
    CoversStill(setup, p.h, i, f, p.h.at, p.h.kept);
    if p.m.pending.Snapped? {
      CoversStill(setup, p.h, i, f, p.h.pos, p.h.taken);
    }
  }

  lemma {:induction false} SnapMarks(setup: Setup, h: History, r: Results, target: Table, id: ChunkID)
    requires Tallied(setup, h, r)
    ensures Marked(setup, Snapshot(r, target, id), Taken(setup, h, target))
  {
  }

  lemma {:induction false} SnapCovers(setup: Setup, h: History)
    requires SortedTables(setup.tables) && Shape(setup, h.nodes) && 0 < h.pos < |h.nodes|
    ensures Covers(setup, h, h.pos, Taken(setup, h, TableOf(setup, h.nodes[h.pos])))
  {
    forall i: nat | 0 < i < |h.nodes| && i <= h.pos && Emitted(setup, h.nodes[i]) && Differs(h.seen, i)
      ensures TableOf(setup, h.nodes[i]) in Taken(setup, h, TableOf(setup, h.nodes[h.pos]))
    {
      EarlierReserved(setup, h.nodes, i, h.pos);
      assert FoundDiffering(setup, h, TableOf(setup, h.nodes[i]));
    }
  }

  lemma {:induction false} TallySnap(setup: Setup, p: Point, p': Point)
    requires SetupOk(setup) && Inv(setup, p) && Tally(setup, p) && Next(setup, p, Snap, p')
    ensures Tally(setup, p')
  {
    var n := SnapStep(setup, p, p');
    var t := TableOf(setup, n);
    ReportParses(setup, p.m.report, p.h.nodes, p.h.seen, t);
    SnapPending(setup, p.h, p'.h, p.m.report, n, p'.m.pending);
    TalliedSame(setup, p.h, p'.h, p.m.report);
  }

  /** The snapshot marks what its history says. */
  lemma {:induction false} SnapPending(setup: Setup, h: History, h': History, r: Results, n: Node, pending: Pending)
    requires SortedTables(setup.tables) && Shape(setup, h.nodes) && Tallied(setup, h, r)
    requires 0 < h.pos < |h.nodes| && n == h.nodes[h.pos]
    requires h' == h.(taken := Taken(setup, h, TableOf(setup, n)))
    requires pending == Snapped(n, Some(Snapshot(r, TableOf(setup, n), n.id)))
    ensures PendingMarks(setup, h', pending)
  {
    SnapMarks(setup, h, r, TableOf(setup, n), n.id);
    SnapCovers(setup, h);
  }

  lemma {:induction false} TallySave(setup: Setup, p: Point, p': Point)
    requires Inv(setup, p) && Tally(setup, p) && Next(setup, p, Save, p')
    ensures Tally(setup, p')
  {
    SaveStep(setup, p, p');
    TalliedSame(setup, p.h, p'.h, p.m.report);
  }

  lemma {:induction false} SaveStep(setup: Setup, p: Point, p': Point)
    requires Next(setup, p, Save, p')
    ensures p.m.pending.Snapped? && p'.h == p.h.(at := p.h.pos, kept := p.h.taken)
    ensures p'.m == p.m.(saved := Some(Saved(p.m.pending.node, p.m.pending.report)), pending := Idle)
  {
  }

  /** Behind a crash, the tables that were saved as unequal are the unequal ones. */
  lemma {:induction false} CrashUnequal(setup: Setup, h: History, h': History, t: Table)
    requires Resumed(h, h') && h'.was == h.kept && Covers(setup, h, h.at, h.kept)
    ensures Unequal(setup, h', t) <==> t in h.kept
    ensures Covers(setup, h', h.at, h.kept)
  {
    forall i: nat | 0 < i < |h'.nodes| && Emitted(setup, h'.nodes[i]) && Differs(h'.seen, i)
      ensures TableOf(setup, h'.nodes[i]) in h.kept
    {
      assert Differs(h.seen, i) && h'.nodes[i] == h.nodes[i];
    }
  }

  lemma {:induction false} LoadedMarks(setup: Setup, saved: Option<Saved>, kept: set<Table>, t: Table)
    requires saved.None? ==> kept == {}
    requires saved.Some? ==> saved.value.report.Some? && Marked(setup, saved.value.report.value, kept)
    ensures t in Loaded(setup, saved) <==> t in setup.tables
    ensures t in Loaded(setup, saved) ==>
              var r := Loaded(setup, saved)[t];
              (r.dataEqual <==> t !in kept) && r.upCount == 0 == r.downCount
  {
  }

  lemma {:induction false} TallyCrash(setup: Setup, p: Point, p': Point, more: seq<Node>)
    requires Tally(setup, p) && Next(setup, p, Crash(more), p')
    ensures Tally(setup, p')
  {
    var h, h' := p.h, p'.h;
    CrashStep(setup, p, more, p');
    forall t: Table
      ensures t in p'.m.report <==> t in setup.tables
      ensures t in p'.m.report ==>
                && (p'.m.report[t].dataEqual <==> !Unequal(setup, h', t))
                && p'.m.report[t].upCount == RunSum(setup, h', t, Ups) && p'.m.report[t].downCount == RunSum(setup, h', t, Downs)
    {
      LoadedMarks(setup, p.m.saved, h.kept, t);
      CrashUnequal(setup, h, h', t);
      SumNothing(setup, h'.nodes, h'.seen, t, Ups, h'.from + 1, |h'.nodes|);
      SumNothing(setup, h'.nodes, h'.seen, t, Downs, h'.from + 1, |h'.nodes|);
    }
    CrashUnequal(setup, h, h', Table("", ""));
  }

  lemma {:induction false} QuietStep(setup: Setup, p: Point, e: Event, p': Point)
    requires Next(setup, p, e, p') && (e.Write? || e.Insert? || e.Pop? || e.Lose?)
    ensures p'.m.report == p.m.report && p'.m.saved == p.m.saved
    ensures p'.h.(pos := p.h.pos, written := p.h.written, finished := p.h.finished) == p.h
    ensures p'.m.pending.Snapped? ==> p'.m.pending == p.m.pending && p'.h.pos == p.h.pos
  {
    if e.Pop? {
      var popped := PopStep(setup, p, p');
    }
  }

  lemma {:induction false} TallyQuiet(setup: Setup, p: Point, e: Event, p': Point)
    requires Tally(setup, p) && Next(setup, p, e, p') && (e.Write? || e.Insert? || e.Pop? || e.Lose?)
    ensures Tally(setup, p')
  {
    QuietStep(setup, p, e, p');
    KeepSame(setup, p, p');
  }

  lemma {:induction false} TallyStep(setup: Setup, p: Point, e: Event, p': Point)
    requires SetupOk(setup) && Inv(setup, p) && Tally(setup, p) && Next(setup, p, e, p')
    ensures Tally(setup, p')
  {
    match e
    case Consume(i, f) => TallyConsume(setup, p, p', i, f);
    case Write(_) => TallyQuiet(setup, p, e, p');
    case Insert(_) => TallyQuiet(setup, p, e, p');
    case Pop => TallyQuiet(setup, p, e, p');
    case Snap => TallySnap(setup, p, p');
    case Save => TallySave(setup, p, p');
    case Lose => TallyQuiet(setup, p, e, p');
    case Crash(more) => TallyCrash(setup, p, p', more);
  }

  lemma {:induction false} TallyInit(setup: Setup, p: Point)
    requires Init(setup, p)
    ensures Tally(setup, p)
  {
    forall t: Table
      ensures RunSum(setup, p.h, t, Ups) == 0 == RunSum(setup, p.h, t, Downs) && !Unequal(setup, p.h, t)
    {
      SumNothing(setup, p.h.nodes, p.h.seen, t, Ups, 1, |p.h.nodes|);
      SumNothing(setup, p.h.nodes, p.h.seen, t, Downs, 1, |p.h.nodes|);
    }
  }

  /**
   * In every state of every run, with crashes anywhere: a table is reported as unequal if and only if a chunk of it that was
   * compared differed, or it was loaded as unequal; and its rows are counted over the verdicts of the current run.
   */
  lemma {:induction false} AlwaysTallied(setup: Setup, events: seq<Event>, p: Point)
    requires SetupOk(setup) && Reachable(setup, events, p)
    ensures Tally(setup, p)
  {
    if events == [] {
      TallyInit(setup, p);
    } else {
      var before, e := events[..|events| - 1], events[|events| - 1];
      var p0 :| Reachable(setup, before, p0) && Next(setup, p0, e, p);
      Always(setup, before, p0);
      AlwaysTallied(setup, before, p0);
      TallyStep(setup, p0, e, p);
    }
  }

  // ---------- What follows ----------

  /**
   * Right after a restart: a table is unequal if and only if it was when the saved snapshot was taken and was in it, and so
   * is every table with a chunk up to the saved one that differed; no rows are counted yet.
   */
  lemma {:induction false} RestartTallied(setup: Setup, events: seq<Event>, p: Point, more: seq<Node>, p': Point, t: Table)
    requires SetupOk(setup) && Reachable(setup, events, p) && Next(setup, p, Crash(more), p') && t in setup.tables
    ensures t in p'.m.report && (p'.m.report[t].dataEqual <==> t !in p.h.kept)
    ensures p'.m.report[t].upCount == 0 == p'.m.report[t].downCount
    ensures FoundDiffering(setup, p'.h, t) ==> t in p.h.kept
  {
    AlwaysTallied(setup, events, p);
    CrashStep(setup, p, more, p');
    LoadedMarks(setup, p.m.saved, p.h.kept, t);
    CrashUnequal(setup, p.h, p'.h, t);
  }

  lemma {:induction false} CrashStep(setup: Setup, p: Point, more: seq<Node>, p': Point)
    requires Next(setup, p, Crash(more), p')
    ensures Resumed(p.h, p'.h) && p'.h.was == p.h.kept == p'.h.kept && p'.h.from == p.h.at && p'.m.pending == Idle && p'.m.saved == p.m.saved
    ensures p'.m.report == Loaded(setup, p.m.saved) && forall i :: i in p'.h.seen ==> i <= p.h.at
  {
  }

  /** A chunk of the table was compared at some point of the run, and differed. */
  ghost predicate Blamed(setup: Setup, events: seq<Event>, t: Table) {
    exists k: nat, q: Point :: k < |events| && Reachable(setup, events[..k], q) && FindsDiffering(setup, q, events[k], t)
  }

  predicate FindsDiffering(setup: Setup, q: Point, e: Event, t: Table) {
    && e.Consume? && !e.finding.verdict.equal && 0 < e.i < |q.h.nodes|
    && Emitted(setup, q.h.nodes[e.i]) && TableOf(setup, q.h.nodes[e.i]) == t
  }

  lemma {:induction false} BlamedStill(setup: Setup, before: seq<Event>, e: Event, t: Table)
    requires Blamed(setup, before, t)
    ensures Blamed(setup, before + [e], t)
  {
    var k: nat, q: Point :| k < |before| && Reachable(setup, before[..k], q) && FindsDiffering(setup, q, before[k], t);
    assert (before + [e])[..k] == before[..k] && (before + [e])[k] == before[k];
  }

  lemma {:induction false} BlamedNow(setup: Setup, before: seq<Event>, e: Event, p: Point, t: Table)
    requires Reachable(setup, before, p) && FindsDiffering(setup, p, e, t)
    ensures Blamed(setup, before + [e], t)
  {
    assert (before + [e])[..|before|] == before && (before + [e])[|before|] == e;
  }

  /** Of all these tables, some chunk was compared and differed. */
  ghost predicate AllBlamed(setup: Setup, events: seq<Event>, h: History) {
    forall t: Table :: Unequal(setup, h, t) || t in h.taken || t in h.kept ==> Blamed(setup, events, t)
  }

  lemma {:induction false} BlamedStep(setup: Setup, before: seq<Event>, p0: Point, e: Event, p: Point, t: Table)
    requires Reachable(setup, before, p0) && Next(setup, p0, e, p) && AllBlamed(setup, before, p0.h)
    requires Unequal(setup, p.h, t) || t in p.h.taken || t in p.h.kept
    ensures Blamed(setup, before + [e], t)
  {
    if Unequal(setup, p0.h, t) || t in p0.h.taken || t in p0.h.kept {
      BlamedStill(setup, before, e, t);
    } else if e.Consume? {
      FoundMore(setup, p0.h, e.i, e.finding, t);
      BlamedNow(setup, before, e, p0, t);
    } else if e.Crash? {
      CrashFound(setup, p0.h, p.h, t);
    } else {
      UnequalSame(setup, p0.h, p.h, t);
    }
  }

  lemma {:induction false} CrashFound(setup: Setup, h: History, h': History, t: Table)
    requires Resumed(h, h')
    ensures FoundDiffering(setup, h', t) ==> FoundDiffering(setup, h, t)
  {
    if i: nat :| 0 < i < |h'.nodes| && Emitted(setup, h'.nodes[i]) && Differs(h'.seen, i) && TableOf(setup, h'.nodes[i]) == t {
      assert Differs(h.seen, i) && h'.nodes[i] == h.nodes[i];
    }
  }

  lemma {:induction false} AllBlamedStep(setup: Setup, before: seq<Event>, p0: Point, e: Event, p: Point)
    requires Reachable(setup, before, p0) && Next(setup, p0, e, p) && AllBlamed(setup, before, p0.h)
    ensures AllBlamed(setup, before + [e], p.h)
  {
    forall t: Table | Unequal(setup, p.h, t) || t in p.h.taken || t in p.h.kept
      ensures Blamed(setup, before + [e], t)
    {
      BlamedStep(setup, before, p0, e, p, t);
    }
  }

  /** In no state, however many crashes were before, is a table reported as unequal of which no chunk has differed. */
  lemma {:induction false} NoFalseAlarm(setup: Setup, events: seq<Event>, p: Point)
    requires Reachable(setup, events, p)
    ensures AllBlamed(setup, events, p.h)
  {
    if events != [] {
      var before, e := events[..|events| - 1], events[|events| - 1];
      var p0 :| Reachable(setup, before, p0) && Next(setup, p0, e, p);
      NoFalseAlarm(setup, before, p0);
      AllBlamedStep(setup, before, p0, e, p);
      assert before + [e] == events;
    }
  }
}
