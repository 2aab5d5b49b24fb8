/**
 * The comparison pipeline with crashes (sync_diff_inspector/diff.go): a state machine whose steps interleave freely, and
 * whose next run goes on from what the last one saved.
 */
module Protocol {
  import opened Wrappers
  import opened Keys
  import opened Cover
  import opened Chunks
  import opened Nodes
  import opened Checkpoints
  import opened FileNames
  import opened Reports

  // Chunks are compared in any order, their fix files written, the nodes inserted into the checkpoint, and a background
  // loop saves the checkpoint with a report.  A crash may come between any two steps; the next run removes later fix
  // files, loads the report and goes on.

  /** The tables, in the order they are compared, and the directory of the fix files. */
  datatype Setup = Setup(tables: seq<Table>, dir: string)

  /** What comparing one chunk gave: the report entry, and whether there are fix statements. */
  datatype Finding = Finding(verdict: Verdict, hasSql: bool)

  type Seen = map<nat, Finding>

  /** The checkpoint file. */
  datatype Saved = Saved(node: Node, report: Option<Results>)

  /** How far the background loop is with one save. */
  datatype Pending = Idle | Popped(node: Node) | Snapped(node: Node, report: Option<Results>)

  /** What the program holds in memory and on disk; the files and the checkpoint file survive a crash. */
  datatype Machine = Machine(
    report: Results, heap: multiset<Node>, current: Node, pending: Pending,
    saved: Option<Saved>, files: set<string>, fatal: bool)

  /**
   * What happened so far.  Position 0 is the node before all tables, the chunks up to position `at` are in the
   * checkpoint file, those up to `pos` in the checkpoint, and the rest are what this run produces, behind `from`.  Of the
   * tables, `was` are those that were loaded as unequal, `taken` those that the last snapshot has as unequal, and `kept`
   * those of the snapshot that was saved.
   */
  datatype History = History(
    nodes: seq<Node>, at: nat, pos: nat, seen: Seen, written: set<nat>, finished: set<nat>,
    from: nat, was: set<Table>, taken: set<Table>, kept: set<Table>)

  datatype Point = Point(h: History, m: Machine)

  datatype Event =
    | Consume(i: nat, finding: Finding)
    | Write(i: nat)
    | Insert(i: nat)
    | Pop
    | Snap
    | Save
    | Lose
    | Crash(more: seq<Node>)

  // ---------- Fix files ----------

  function TableOf(setup: Setup, n: Node): Table
    requires 0 <= n.id.table < |setup.tables|
  {
    setup.tables[n.id.table]
  }

  function NameOf(setup: Setup, n: Node): string
    requires 0 <= n.id.table < |setup.tables|
  {
    FileName(TableOf(setup, n).schema, TableOf(setup, n).name, n.id)
  }

  predicate Occurs(s: string, sub: string, i: int) {
    0 <= i <= |s| - |sub| && s[i..i + |sub|] == sub
  }

  predicate Contains(s: string, sub: string) {
    exists i :: 0 <= i <= |s| && Occurs(s, sub, i)
  }

  /** A text contains another one if and only if it is that one with some text before and behind it. */
  lemma {:induction false} ContainsIff(s: string, sub: string)
    ensures Contains(s, sub) <==> exists before: string, behind: string :: s == before + sub + behind
  {
    if i :| 0 <= i <= |s| && Occurs(s, sub, i) {
      assert s == s[..i] + sub + s[i + |sub|..];
    }
    if before: string, behind: string :| s == before + sub + behind {
      assert Occurs(s, sub, |before|);
    }
  }

  /** A path under a trash directory is never looked at. */
  predicate InTrash(setup: Setup, name: string) {
    Contains(setup.dir + "/" + name, ".trash")
  }

  /** A table's name that puts its fix files out of reach of the removal. */
  predicate TrashName(setup: Setup, t: Table) {
    InTrash(setup, t.schema + ":" + t.name)
  }

  /** The files left when those of chunks after `id` are moved away. */
  function Remaining(setup: Setup, files: set<string>, id: ChunkID): set<string> {
    set f | f in files && (InTrash(setup, f) || !LaterFile(f, id))
  }

  predicate LaterFile(f: string, id: ChunkID) {
    match FileChunk(f)
    case Ok(Some(fileID)) => Compare(fileID, id) > 0
    case _ => false
  }

  /** What is no fix file by its name stays. */
  lemma {:induction false} OthersStay(setup: Setup, files: set<string>, id: ChunkID, f: string)
    requires f in files && forall stem: string :: f != stem + ".sql"
    ensures f in Remaining(setup, files, id)
  {
    PassedOver(f);
  }

  /** A file that looks like a fix file but cannot be parsed stops the start. */
  predicate RemovalFails(setup: Setup, files: set<string>) {
    exists f :: f in files && !InTrash(setup, f) && !FileChunk(f).Ok?
  }

  // ---------- Steps ----------

  function Upto(seen: Seen, k: nat): Seen {
    map i | i in seen && i <= k :: seen[i]
  }

  /** 1 to `k`. */
  function Positions(k: nat): (r: set<nat>)
    ensures forall i :: i in r <==> 0 < i <= k
  {
    if k == 0 then {} else Positions(k - 1) + {k}
  }

  function From(saved: Option<Saved>): Node {
    if saved.Some? then saved.value.node else INIT_NODE
  }

  function Loaded(setup: Setup, saved: Option<Saved>): Results {
    Fresh(setup.tables) + if saved.Some? && saved.value.report.Some? then saved.value.report.value else map[]
  }

  predicate Emitted(setup: Setup, n: Node) {
    0 <= n.id.table < |setup.tables| && Numbered(n.id)
  }

  /** Nodes the producers can emit: a path from the node before all tables. */
  predicate Shape(setup: Setup, nodes: seq<Node>) {
    && nodes != [] && nodes[0] == INIT_NODE && Path(nodes)
    && (forall i :: 0 < i < |nodes| ==> Emitted(setup, nodes[i]))
  }

  predicate Allowed(setup: Setup, p: Point, e: Event) {
    match e
    case Consume(i, _) => 0 < i < |p.h.nodes| && i !in p.h.seen && Emitted(setup, p.h.nodes[i]) && TableOf(setup, p.h.nodes[i]) in p.m.report
    case Write(i) => i < |p.h.nodes| && i in p.h.seen && i !in p.h.written && Emitted(setup, p.h.nodes[i])
    case Insert(i) => i < |p.h.nodes| && i in p.h.written && i !in p.h.finished
    case Pop => p.m.pending.Idle? && p.h.pos < |p.h.nodes|
    case Snap => p.m.pending.Popped? && Emitted(setup, p.m.pending.node)
    case Save => p.m.pending.Snapped?
    case Lose => p.m.pending.Snapped?
    case Crash(more) => p.h.at < |p.h.nodes| && Shape(setup, p.h.nodes[..p.h.at + 1] + more) && !RemovalFails(setup, p.m.files)
  }

  ghost predicate Popping(m: Machine, m': Machine, popped: seq<Node>) {
    && Drains(m.heap, m.current, popped, m'.heap) && m'.current == LastOr(popped, m.current)
    && m' == m.(heap := m'.heap, current := m'.current, pending := if popped == [] then Idle else Pending.Popped(m'.current))
  }

  /** What a step does in memory and on disk. */
  ghost predicate Runs(setup: Setup, p: Point, e: Event, m': Machine)
    requires Allowed(setup, p, e)
  {
    var h, m := p.h, p.m;
    match e
    case Consume(i, f) =>
      var t := TableOf(setup, h.nodes[i]);
      m' == m.(report := m.report[t := WithVerdict(m.report[t], f.verdict, h.nodes[i].id)])
    case Write(i) =>
      if !h.seen[i].hasSql then m' == m
      else if NameOf(setup, h.nodes[i]) in m.files then m' == m.(fatal := true)
      else m' == m.(files := m.files + {NameOf(setup, h.nodes[i])})
    case Insert(i) => m' == m.(heap := m.heap + multiset{h.nodes[i]})
    case Pop => exists popped :: Popping(m, m', popped)
    case Snap =>
      var n := m.pending.node;
      var t := TableOf(setup, n);
      m' == m.(pending := Snapped(n, if SnapshotOk(m.report, t) then Some(Snapshot(m.report, t, n.id)) else None))
    case Save => m' == m.(saved := Some(Saved(m.pending.node, m.pending.report)), pending := Idle)
    case Lose => m' == m.(pending := Idle)
    case Crash(_) =>
      m' == Machine(Loaded(setup, m.saved), multiset{}, From(m.saved), Idle, m.saved,
                    Remaining(setup, m.files, From(m.saved).id), false)
  }

  /** Some chunk of the table that was compared, in this run or before the checkpoint, differed. */
  predicate FoundDiffering(setup: Setup, h: History, t: Table) {
    exists i: nat :: 0 < i < |h.nodes| && Emitted(setup, h.nodes[i]) && Differs(h.seen, i) && TableOf(setup, h.nodes[i]) == t
  }

  /** Such a table, or one that was loaded as unequal. */
  predicate Unequal(setup: Setup, h: History, t: Table) {
    t in h.was || FoundDiffering(setup, h, t)
  }

  /** The unequal tables that a snapshot for this table holds. */
  function Taken(setup: Setup, h: History, target: Table): set<Table> {
    set t | t in setup.tables && Reserved(t, target) && Unequal(setup, h, t)
  }

  /** What a step adds to the history. */
  function Record(setup: Setup, p: Point, e: Event): History
    requires Allowed(setup, p, e)
  {
    var h := p.h;
    match e
    case Consume(i, f) => h.(seen := h.seen[i := f])
    case Write(i) => h.(written := h.written + {i})
    case Insert(i) => h.(finished := h.finished + {i})
    case Pop => h.(pos := Advance(h.nodes, h.finished, h.pos))
    case Snap => h.(taken := Taken(setup, h, TableOf(setup, p.m.pending.node)))
    case Save => h.(at := h.pos, kept := h.taken)
    case Crash(more) =>
      History(h.nodes[..h.at + 1] + more, h.at, h.at, Upto(h.seen, h.at), Positions(h.at), Positions(h.at), h.at, h.kept, {}, h.kept)
    case _ => h
  }

  ghost predicate Next(setup: Setup, p: Point, e: Event, p': Point) {
    Allowed(setup, p, e) && Runs(setup, p, e, p'.m) && p'.h == Record(setup, p, e)
  }

  /** The first run, with no checkpoint file and no fix files. */
  ghost predicate Init(setup: Setup, p: Point) {
    && Shape(setup, p.h.nodes)
    && p.h == History(p.h.nodes, 0, 0, map[], {}, {}, 0, {}, {}, {})
    && p.m == Machine(Fresh(setup.tables), multiset{}, INIT_NODE, Idle, None, {}, false)
  }

  ghost predicate Reachable(setup: Setup, events: seq<Event>, p: Point) {
    if events == [] then Init(setup, p)
    else
      var before, e := events[..|events| - 1], events[|events| - 1];
      exists p0 :: Reachable(setup, before, p0) && Next(setup, p0, e, p)
  }

  // ---------- The invariant ----------

  /** The names of the tables and of the directory do not get in the way of finding the fix files again. */
  predicate PlainNames(setup: Setup) {
    forall t :: t in setup.tables ==> ':' !in t.schema && ':' !in t.name && !TrashName(setup, t)
  }

  predicate SetupOk(setup: Setup) {
    SortedTables(setup.tables) && PlainNames(setup)
  }

  predicate Differs(seen: Seen, i: nat) {
    i in seen && !seen[i].verdict.equal
  }

  /** The report has the entry of the node with the counts of its verdict. */
  predicate HasEntry(setup: Setup, r: Results, n: Node, v: Verdict)
    requires Emitted(setup, n)
  {
    var t := TableOf(setup, n);
    t in r && ToString(n.id) in r[t].chunkMap && r[t].chunkMap[ToString(n.id)] == ChunkResult(v.rowsAdd, v.rowsDelete)
  }

  /** Some seen position whose chunk differed belongs to this entry. */
  predicate Explained(setup: Setup, nodes: seq<Node>, seen: Seen, t: Table, key: string)
    requires Shape(setup, nodes)
  {
    exists i: nat :: 0 < i < |nodes| && Differs(seen, i) && TableOf(setup, nodes[i]) == t && ToString(nodes[i].id) == key
  }

  /** The report holds exactly the seen chunks that differed, each with its own counts, once. */
  predicate ReportOf(setup: Setup, r: Results, nodes: seq<Node>, seen: Seen)
    requires Shape(setup, nodes)
  {
    && (forall i: nat :: 0 < i < |nodes| && Differs(seen, i) ==> HasEntry(setup, r, nodes[i], seen[i].verdict))
    && (forall t: Table, key: string :: t in r && key in r[t].chunkMap ==> Explained(setup, nodes, seen, t, key))
  }

  predicate Sets(h: History) {
    && h.at <= h.pos < |h.nodes| && Positions(h.pos) <= h.finished <= h.written && h.written <= h.seen.Keys
    && (forall i :: i in h.seen ==> 0 < i < |h.nodes|)
  }

  predicate HasFile(h: History, i: nat) {
    i in h.written && i in h.seen && h.seen[i].hasSql
  }

  /** The fix files are those of the written chunks with fix statements. */
  predicate FilesOf(setup: Setup, h: History, files: set<string>)
    requires Shape(setup, h.nodes)
  {
    && (forall i: nat :: 0 < i < |h.nodes| && HasFile(h, i) ==> NameOf(setup, h.nodes[i]) in files)
    && (forall f :: f in files ==> exists i: nat :: 0 < i < |h.nodes| && HasFile(h, i) && NameOf(setup, h.nodes[i]) == f)
  }

  predicate SavedOf(setup: Setup, h: History, saved: Option<Saved>)
    requires Shape(setup, h.nodes) && h.at < |h.nodes|
  {
    if h.at == 0 then saved == None
    else
      && saved.Some? && saved.value.node == h.nodes[h.at] && saved.value.report.Some?
      && ReportOf(setup, saved.value.report.value, h.nodes, Upto(h.seen, h.at))
  }

  predicate PendingOf(setup: Setup, h: History, pending: Pending)
    requires Shape(setup, h.nodes) && h.pos < |h.nodes|
  {
    match pending
    case Idle => true
    case Popped(n) => h.pos > 0 && n == h.nodes[h.pos]
    case Snapped(n, r) =>
      h.pos > 0 && n == h.nodes[h.pos] && r.Some? && ReportOf(setup, r.value, h.nodes, Upto(h.seen, h.pos))
  }

  predicate KnowsTables(setup: Setup, r: Results) {
    forall t :: t in setup.tables ==> t in r
  }

  ghost predicate Inv(setup: Setup, p: Point) {
    && Shape(setup, p.h.nodes) && Sets(p.h)
    && Agrees(p.h.nodes, p.h.finished, p.h.pos, State(p.m.heap, p.m.current))
    && KnowsTables(setup, p.m.report) && ReportOf(setup, p.m.report, p.h.nodes, p.h.seen)
    && SavedOf(setup, p.h, p.m.saved) && PendingOf(setup, p.h, p.m.pending)
    && FilesOf(setup, p.h, p.m.files) && !p.m.fatal
  }

  // ---------- Names ----------

  /** Identity, report key and fix file of a position all tell it from every other position. */
  lemma {:induction false} ByCompare(setup: Setup, nodes: seq<Node>, i: nat, j: nat)
    requires Shape(setup, nodes) && i < |nodes| && j < |nodes|
    ensures Compare(nodes[i].id, nodes[j].id) <= 0 <==> i <= j
  {
    if i < j {
      Increasing(nodes, i, j);
    } else if j < i {
      Increasing(nodes, j, i);
    }
  }

  lemma {:induction false} KeysDistinct(setup: Setup, nodes: seq<Node>, i: nat, j: nat)
    requires Shape(setup, nodes) && 0 < i < |nodes| && 0 < j < |nodes|
    requires ToString(nodes[i].id) == ToString(nodes[j].id)
    ensures i == j
  {
    IdRoundTrip(nodes[i].id);
    IdRoundTrip(nodes[j].id);
    ByCompare(setup, nodes, i, j);
    ByCompare(setup, nodes, j, i);
  }

  /** What follows the names in a file's path does not complete the trash marker. */
  lemma {:induction false} CleanTail(p: string, rest: string)
    requires !Contains(p, ".trash") && 'h' !in rest
    ensures !Contains(p + rest, ".trash")
  {
    if i :| 0 <= i <= |p + rest| && Occurs(p + rest, ".trash", i) {
      assert (p + rest)[i..i + 6][5] == 'h';
      assert (p + rest)[i + 5] == 'h';
      assert p[i..i + 6] == (p + rest)[i..i + 6];
      assert Occurs(p, ".trash", i);
    }
  }

  lemma {:induction false} NoLetter(id: ChunkID)
    ensures 'h' !in GetSQLFileName(id)
  {
    ItoaNoLetter(id.table);
    ItoaNoLetter(id.left);
    ItoaNoLetter(id.right);
    ItoaNoLetter(id.index);
  }

  lemma {:induction false} ItoaNoLetter(n: int)
    ensures 'h' !in Text.Itoa(n)
  {
  }

  lemma {:induction false} PathParts(dir: string, schema: string, name: string, rest: string)
    ensures dir + "/" + (schema + ":" + name + ":" + rest + ".sql") == (dir + "/" + (schema + ":" + name)) + (":" + rest + ".sql")
  {
  }

  lemma {:induction false} NotInTrash(setup: Setup, n: Node)
    requires Emitted(setup, n) && !TrashName(setup, TableOf(setup, n))
    ensures !InTrash(setup, NameOf(setup, n))
  {
    var t := TableOf(setup, n);
    var rest := GetSQLFileName(n.id);
    NoLetter(n.id);
    assert 'h' !in ":" + rest + ".sql";
    CleanTail(setup.dir + "/" + (t.schema + ":" + t.name), ":" + rest + ".sql");
    PathParts(setup.dir, t.schema, t.name, rest);
  }

  lemma {:induction false} FileOfNode(setup: Setup, n: Node)
    requires PlainNames(setup) && Emitted(setup, n)
    ensures FileChunk(NameOf(setup, n)) == Ok(Some(n.id.(count := 0)))
  {
    FileRoundTrip(TableOf(setup, n).schema, TableOf(setup, n).name, n.id);
  }

  lemma {:induction false} NamesDistinct(setup: Setup, nodes: seq<Node>, i: nat, j: nat)
    requires PlainNames(setup) && Shape(setup, nodes) && 0 < i < |nodes| && 0 < j < |nodes|
    requires NameOf(setup, nodes[i]) == NameOf(setup, nodes[j])
    ensures i == j
  {
    FileOfNode(setup, nodes[i]);
    FileOfNode(setup, nodes[j]);
    ByCompare(setup, nodes, i, j);
    ByCompare(setup, nodes, j, i);
  }

  // ---------- The report ----------

  /** Whose entry it is. */
  lemma {:induction false} EntryOwner(setup: Setup, r: Results, nodes: seq<Node>, seen: Seen, t: Table, key: string) returns (i: nat)
    requires Shape(setup, nodes) && ReportOf(setup, r, nodes, seen) && t in r && key in r[t].chunkMap
    ensures 0 < i < |nodes| && Differs(seen, i) && TableOf(setup, nodes[i]) == t && ToString(nodes[i].id) == key
  {
    assert Explained(setup, nodes, seen, t, key);
    i :| 0 < i < |nodes| && Differs(seen, i) && TableOf(setup, nodes[i]) == t && ToString(nodes[i].id) == key;
  }

  /** A position not seen yet has no entry. */
  lemma {:induction false} NoEntryYet(setup: Setup, r: Results, nodes: seq<Node>, seen: Seen, i: nat)
    requires Shape(setup, nodes) && ReportOf(setup, r, nodes, seen) && 0 < i < |nodes| && i !in seen
    requires TableOf(setup, nodes[i]) in r
    ensures ToString(nodes[i].id) !in r[TableOf(setup, nodes[i])].chunkMap
  {
    if ToString(nodes[i].id) in r[TableOf(setup, nodes[i])].chunkMap {
      var j := EntryOwner(setup, r, nodes, seen, TableOf(setup, nodes[i]), ToString(nodes[i].id));
      KeysDistinct(setup, nodes, i, j);
    }
  }

  /** The entries after a verdict. */
  lemma {:induction false} VerdictEntries(setup: Setup, r: Results, n: Node, v: Verdict, m: Node, w: Verdict)
    requires Emitted(setup, n) && Emitted(setup, m) && TableOf(setup, n) in r
    requires ToString(n.id) !in r[TableOf(setup, n)].chunkMap
    ensures var r' := r[TableOf(setup, n) := WithVerdict(r[TableOf(setup, n)], v, n.id)];
            && (!v.equal ==> HasEntry(setup, r', n, v))
            && (HasEntry(setup, r, m, w) && ToString(m.id) != ToString(n.id) ==> HasEntry(setup, r', m, w))
  {
  }

  /** A first verdict for a position goes into the report as it is. */
  lemma {:induction false} ConsumeReport(setup: Setup, r: Results, nodes: seq<Node>, seen: Seen, i: nat, f: Finding)
    requires Shape(setup, nodes) && ReportOf(setup, r, nodes, seen) && 0 < i < |nodes| && i !in seen
    requires TableOf(setup, nodes[i]) in r
    ensures var t := TableOf(setup, nodes[i]);
            ReportOf(setup, r[t := WithVerdict(r[t], f.verdict, nodes[i].id)], nodes, seen[i := f])
  {
    NoEntryYet(setup, r, nodes, seen, i);
    var t := TableOf(setup, nodes[i]);
    var key := ToString(nodes[i].id);
    var r' := r[t := WithVerdict(r[t], f.verdict, nodes[i].id)];
    var seen' := seen[i := f];
    forall j: nat | 0 < j < |nodes| && Differs(seen', j)
      ensures HasEntry(setup, r', nodes[j], seen'[j].verdict)
    {
      VerdictEntries(setup, r, nodes[i], f.verdict, nodes[j], seen'[j].verdict);
      if j != i {
        assert Differs(seen, j);
        if ToString(nodes[j].id) == key {
          KeysDistinct(setup, nodes, i, j);
        }
      }
    }
    forall u: Table, k: string | u in r' && k in r'[u].chunkMap
      ensures Explained(setup, nodes, seen', u, k)
    {
      ConsumeExplained(setup, r, nodes, seen, i, f, u, k);
    }
  }

  /** Whose entries there are after a verdict. */
  lemma {:induction false} VerdictKeys(setup: Setup, r: Results, n: Node, f: Finding, u: Table, k: string)
    requires Emitted(setup, n) && TableOf(setup, n) in r
    requires var r' := r[TableOf(setup, n) := WithVerdict(r[TableOf(setup, n)], f.verdict, n.id)];
             u in r' && k in r'[u].chunkMap
    ensures (u == TableOf(setup, n) && k == ToString(n.id) && !f.verdict.equal) || (u in r && k in r[u].chunkMap)
  {
  }

  lemma {:induction false} StillExplained(setup: Setup, nodes: seq<Node>, seen: Seen, i: nat, f: Finding, u: Table, k: string)
    requires Shape(setup, nodes) && Explained(setup, nodes, seen, u, k) && i !in seen
    ensures Explained(setup, nodes, seen[i := f], u, k)
  {
    var j: nat :| 0 < j < |nodes| && Differs(seen, j) && TableOf(setup, nodes[j]) == u && ToString(nodes[j].id) == k;
    assert Differs(seen[i := f], j);
  }

  lemma {:induction false} ConsumeExplained(setup: Setup, r: Results, nodes: seq<Node>, seen: Seen, i: nat, f: Finding, u: Table, k: string)
    requires Shape(setup, nodes) && ReportOf(setup, r, nodes, seen) && 0 < i < |nodes| && i !in seen
    requires TableOf(setup, nodes[i]) in r
    requires var t := TableOf(setup, nodes[i]);
             var r' := r[t := WithVerdict(r[t], f.verdict, nodes[i].id)];
             u in r' && k in r'[u].chunkMap
    ensures Explained(setup, nodes, seen[i := f], u, k)
  {
    VerdictKeys(setup, r, nodes[i], f, u, k);
    if u in r && k in r[u].chunkMap {
      StillExplained(setup, nodes, seen, i, f, u, k);
    } else {
      assert Differs(seen[i := f], i);
    }
  }

  /** All keys of such a report can be parsed, so that a snapshot never fails. */
  lemma {:induction false} ReportParses(setup: Setup, r: Results, nodes: seq<Node>, seen: Seen, target: Table)
    requires Shape(setup, nodes) && ReportOf(setup, r, nodes, seen)
    ensures SnapshotOk(r, target)
  {
    forall t: Table, key: string | t in r && key in r[t].chunkMap
      ensures FromString(key).Ok?
    {
      var j := EntryOwner(setup, r, nodes, seen, t, key);
      IdRoundTrip(nodes[j].id);
    }
  }

  /** With the tables sorted, a snapshot keeps the table of every earlier chunk. */
  lemma {:induction false} EarlierReserved(setup: Setup, nodes: seq<Node>, i: nat, k: nat)
    requires SortedTables(setup.tables) && Shape(setup, nodes) && 0 < i <= k < |nodes|
    ensures Reserved(TableOf(setup, nodes[i]), TableOf(setup, nodes[k]))
  {
    if i < k {
      AlongPath(nodes, i, k);
    }
    TextLeqReflexive(UniqueID(TableOf(setup, nodes[k])));
  }

  /** A snapshot for a position holds exactly the chunks up to it that differed. */
  lemma {:induction false} SnapshotReport(setup: Setup, r: Results, nodes: seq<Node>, seen: Seen, k: nat)
    requires SortedTables(setup.tables) && Shape(setup, nodes) && ReportOf(setup, r, nodes, seen) && 0 < k < |nodes|
    ensures ReportOf(setup, Snapshot(r, TableOf(setup, nodes[k]), nodes[k].id), nodes, Upto(seen, k))
  {
    var s := Snapshot(r, TableOf(setup, nodes[k]), nodes[k].id);
    forall i: nat | 0 < i < |nodes| && Differs(Upto(seen, k), i)
      ensures HasEntry(setup, s, nodes[i], Upto(seen, k)[i].verdict)
    {
      assert Differs(seen, i);
      assert HasEntry(setup, r, nodes[i], seen[i].verdict);
      EarlierReserved(setup, nodes, i, k);
      IdRoundTrip(nodes[i].id);
      ByCompare(setup, nodes, i, k);
    }
    forall t: Table, key: string | t in s && key in s[t].chunkMap
      ensures Explained(setup, nodes, Upto(seen, k), t, key)
    {
      var i := EntryOwner(setup, r, nodes, seen, t, key);
      IdRoundTrip(nodes[i].id);
      ByCompare(setup, nodes, i, k);
      assert Differs(Upto(seen, k), i);
    }
  }

  // ---------- The fix files ----------

  /** Whose file it is. */
  lemma {:induction false} FileOwner(setup: Setup, h: History, files: set<string>, f: string) returns (i: nat)
    requires Shape(setup, h.nodes) && FilesOf(setup, h, files) && f in files
    ensures 0 < i < |h.nodes| && HasFile(h, i) && NameOf(setup, h.nodes[i]) == f
  {
    i :| 0 < i < |h.nodes| && HasFile(h, i) && NameOf(setup, h.nodes[i]) == f;
  }

  /** A chunk whose file was not written yet finds no file of its name: the repeat never happens. */
  lemma {:induction false} NoRepeat(setup: Setup, h: History, files: set<string>, i: nat)
    requires PlainNames(setup) && Shape(setup, h.nodes) && FilesOf(setup, h, files)
    requires 0 < i < |h.nodes| && i !in h.written
    ensures NameOf(setup, h.nodes[i]) !in files
  {
    if NameOf(setup, h.nodes[i]) in files {
      var j := FileOwner(setup, h, files, NameOf(setup, h.nodes[i]));
      NamesDistinct(setup, h.nodes, i, j);
    }
  }

  lemma {:induction false} WriteFiles(setup: Setup, h: History, files: set<string>, i: nat)
    requires Shape(setup, h.nodes) && FilesOf(setup, h, files)
    requires 0 < i < |h.nodes| && i in h.seen && i !in h.written
    ensures FilesOf(setup, h.(written := h.written + {i}),
                    if h.seen[i].hasSql then files + {NameOf(setup, h.nodes[i])} else files)
  {
    var h' := h.(written := h.written + {i});
    var files' := if h.seen[i].hasSql then files + {NameOf(setup, h.nodes[i])} else files;
    forall j: nat | 0 < j < |h.nodes| && HasFile(h', j)
      ensures NameOf(setup, h.nodes[j]) in files'
    {
      if j != i {
        assert HasFile(h, j);
      }
    }
    forall f | f in files'
      ensures exists j: nat :: 0 < j < |h.nodes| && HasFile(h', j) && NameOf(setup, h.nodes[j]) == f
    {
      if f in files {
        var j := FileOwner(setup, h, files, f);
        assert HasFile(h', j);
      } else {
        assert HasFile(h', i);
      }
    }
  }

  /** A verdict for a position not written yet changes no file. */
  lemma {:induction false} ConsumeFiles(setup: Setup, h: History, files: set<string>, i: nat, finding: Finding)
    requires Shape(setup, h.nodes) && FilesOf(setup, h, files) && i !in h.seen && i !in h.written
    ensures FilesOf(setup, h.(seen := h.seen[i := finding]), files)
  {
    var h' := h.(seen := h.seen[i := finding]);
    assert forall j: nat :: HasFile(h', j) <==> HasFile(h, j);
    forall f | f in files
      ensures exists j: nat :: 0 < j < |h.nodes| && HasFile(h', j) && NameOf(setup, h.nodes[j]) == f
    {
      var j := FileOwner(setup, h, files, f);
      assert HasFile(h', j);
    }
  }

  /** A file is moved away exactly when its chunk is behind the given position. */
  lemma {:induction false} FileLater(setup: Setup, nodes: seq<Node>, i: nat, at: nat)
    requires PlainNames(setup) && Shape(setup, nodes) && 0 < i < |nodes| && at < |nodes|
    ensures LaterFile(NameOf(setup, nodes[i]), nodes[at].id) <==> i > at
    ensures FileChunk(NameOf(setup, nodes[i])).Ok? && !InTrash(setup, NameOf(setup, nodes[i]))
  {
    FileOfNode(setup, nodes[i]);
    NotInTrash(setup, nodes[i]);
    ByCompare(setup, nodes, i, at);
  }

  lemma {:induction false} RemovalWorks(setup: Setup, h: History, files: set<string>)
    requires PlainNames(setup) && Shape(setup, h.nodes) && FilesOf(setup, h, files)
    ensures !RemovalFails(setup, files)
  {
    forall f | f in files
      ensures FileChunk(f).Ok?
    {
      var j := FileOwner(setup, h, files, f);
      FileLater(setup, h.nodes, j, 0);
    }
  }

  /** The new run starts from what the checkpoint file says, with the same nodes up to there. */
  predicate Resumed(h: History, h': History) {
    && h.at < |h.nodes| && h'.at == h'.pos == h.at < |h'.nodes|
    && (forall i :: 0 <= i <= h.at ==> h'.nodes[i] == h.nodes[i])
    && h'.seen == Upto(h.seen, h.at) && h'.written == h'.finished == Positions(h.at)
  }

  lemma {:induction false} SameUpto(h: History, h': History, i: nat)
    requires Sets(h) && Resumed(h, h') && 0 < i
    ensures HasFile(h', i) <==> i <= h.at && HasFile(h, i)
    ensures i <= h.at ==> i in h.written && i in h.seen && i in h'.seen && h'.seen[i] == h.seen[i]
  {
    if i <= h.at {
      assert i in Positions(h.pos);
    }
  }

  /** The new run finds the fix files of exactly the chunks up to the saved one. */
  lemma {:induction false} CrashFiles(setup: Setup, h: History, h': History, files: set<string>)
    requires PlainNames(setup) && Shape(setup, h.nodes) && FilesOf(setup, h, files) && Sets(h)
    requires Resumed(h, h') && Shape(setup, h'.nodes)
    ensures FilesOf(setup, h', Remaining(setup, files, h.nodes[h.at].id))
  {
    var left := Remaining(setup, files, h.nodes[h.at].id);
    forall i: nat | 0 < i < |h'.nodes| && HasFile(h', i)
      ensures NameOf(setup, h'.nodes[i]) in left
    {
      SameUpto(h, h', i);
      FileLater(setup, h.nodes, i, h.at);
    }
    forall f | f in left
      ensures exists i: nat :: 0 < i < |h'.nodes| && HasFile(h', i) && NameOf(setup, h'.nodes[i]) == f
    {
      var i := FileOwner(setup, h, files, f);
      FileLater(setup, h.nodes, i, h.at);
      SameUpto(h, h', i);
    }
  }

  /**
   * A restart that is itself cut short while it moves files away, and starts anew, ends as one that is not: whatever part
   * of the files to be moved was moved before, the removal does not fail, and the state is the same.
   */
  lemma {:induction false} InterruptedRestart(setup: Setup, p: Point, left: set<string>, more: seq<Node>, m': Machine)
    requires Allowed(setup, p, Crash(more)) && Runs(setup, p, Crash(more), m')
    requires Remaining(setup, p.m.files, From(p.m.saved).id) <= left <= p.m.files
    ensures var q := Point(p.h, p.m.(files := left));
            Allowed(setup, q, Crash(more)) && Runs(setup, q, Crash(more), m') && Record(setup, q, Crash(more)) == Record(setup, p, Crash(more))
  {
    assert Remaining(setup, left, From(p.m.saved).id) == Remaining(setup, p.m.files, From(p.m.saved).id);
  }

  // ---------- Every step keeps the invariant ----------

  /** Verdicts of positions in the checkpoint are final. */
  lemma {:induction false} UptoKeeps(seen: Seen, i: nat, f: Finding, k: nat)
    requires i > k
    ensures Upto(seen[i := f], k) == Upto(seen, k)
  {
  }

  lemma {:induction false} KeepConsume(setup: Setup, p: Point, p': Point, i: nat, f: Finding)
    requires SetupOk(setup) && Inv(setup, p) && Next(setup, p, Consume(i, f), p')
    ensures Inv(setup, p')
  {
    ConsumeReport(setup, p.m.report, p.h.nodes, p.h.seen, i, f);
    ConsumeFiles(setup, p.h, p.m.files, i, f);
    assert i !in Positions(p.h.pos);
    UptoKeeps(p.h.seen, i, f, p.h.pos);
    UptoKeeps(p.h.seen, i, f, p.h.at);
  }

  lemma {:induction false} KeepWrite(setup: Setup, p: Point, p': Point, i: nat)
    requires SetupOk(setup) && Inv(setup, p) && Next(setup, p, Write(i), p')
    ensures Inv(setup, p')
  {
    NoRepeat(setup, p.h, p.m.files, i);
    WriteFiles(setup, p.h, p.m.files, i);
  }

  lemma {:induction false} KeepInsert(setup: Setup, p: Point, p': Point, i: nat)
    requires SetupOk(setup) && Inv(setup, p) && Next(setup, p, Insert(i), p')
    ensures Inv(setup, p')
  {
    AfterFinish(p.h.nodes, p.h.finished, p.h.pos, State(p.m.heap, p.m.current), i);
    SameFiles(setup, p.h, p'.h, p.m.files);
  }

  lemma {:induction false} SameFiles(setup: Setup, h: History, h': History, files: set<string>)
    requires Shape(setup, h.nodes) && FilesOf(setup, h, files)
    requires h'.nodes == h.nodes && h'.written == h.written && h'.seen == h.seen
    ensures FilesOf(setup, h', files)
  {
    assert forall j: nat :: HasFile(h', j) <==> HasFile(h, j);
    forall f | f in files
      ensures exists j: nat :: 0 < j < |h'.nodes| && HasFile(h', j) && NameOf(setup, h'.nodes[j]) == f
    {
      var j := FileOwner(setup, h, files, f);
      assert HasFile(h', j);
    }
  }

  /** What a flush leaves. */
  lemma {:induction false} PopStep(setup: Setup, p: Point, p': Point) returns (popped: seq<Node>)
    requires Next(setup, p, Pop, p')
    ensures p.h.pos < |p.h.nodes| && p'.h == p.h.(pos := Advance(p.h.nodes, p.h.finished, p.h.pos))
    ensures Drains(p.m.heap, p.m.current, popped, p'.m.heap) && p'.m.current == LastOr(popped, p.m.current)
    ensures p'.m == p.m.(heap := p'.m.heap, current := p'.m.current, pending := if popped == [] then Idle else Pending.Popped(p'.m.current))
  {
    popped :| Popping(p.m, p'.m, popped);
  }

  lemma {:induction false} KeepPop(setup: Setup, p: Point, p': Point)
    requires SetupOk(setup) && Inv(setup, p) && Next(setup, p, Pop, p')
    ensures Inv(setup, p')
  {
    var popped := PopStep(setup, p, p');
    AfterFlush(p.h.nodes, p.h.finished, p.h.pos, State(p.m.heap, p.m.current), popped, p'.m.heap);
    PopMoves(p.h.nodes, p.h.finished, p.h.pos, p.m.heap, popped, p'.m.heap);
    SameFiles(setup, p.h, p'.h, p.m.files);
  }

  /** A flush that takes something out leaves the first node behind. */
  lemma {:induction false} PopMoves(nodes: seq<Node>, finished: set<nat>, k: nat, heap: multiset<Node>, popped: seq<Node>, left: multiset<Node>)
    requires Path(nodes) && k < |nodes| && Holding(heap, nodes, Later(finished, k)) && Drains(heap, nodes[k], popped, left)
    ensures popped != [] ==> Advance(nodes, finished, k) > k
  {
    if popped != [] {
      TakesNext(nodes, finished, k, heap, popped[0]);
    }
  }

  /** Another pending save, with nothing else changed. */
  lemma {:induction false} InvPending(setup: Setup, p: Point, p': Point, pending: Pending)
    requires Inv(setup, p) && PendingOf(setup, p.h, pending) && p'.h.(taken := p.h.taken) == p.h && p'.m == p.m.(pending := pending)
    ensures Inv(setup, p')
  {
  }

  lemma {:induction false} SnapStep(setup: Setup, p: Point, p': Point) returns (n: Node)
    requires Next(setup, p, Snap, p')
    ensures p'.h.(taken := p.h.taken) == p.h && p.m.pending == Pending.Popped(n) && Emitted(setup, n)
    ensures var t := TableOf(setup, n);
            p'.m == p.m.(pending := Snapped(n, if SnapshotOk(p.m.report, t) then Some(Snapshot(p.m.report, t, n.id)) else None))
  {
    n := p.m.pending.node;
  }

  lemma {:induction false} KeepSnap(setup: Setup, p: Point, p': Point)
    requires SetupOk(setup) && Inv(setup, p) && Next(setup, p, Snap, p')
    ensures Inv(setup, p')
  {
    var n := SnapStep(setup, p, p');
    ReportParses(setup, p.m.report, p.h.nodes, p.h.seen, TableOf(setup, n));
    SnapshotReport(setup, p.m.report, p.h.nodes, p.h.seen, p.h.pos);
    InvPending(setup, p, p', p'.m.pending);
  }

  lemma {:induction false} KeepSave(setup: Setup, p: Point, p': Point)
    requires SetupOk(setup) && Inv(setup, p) && Next(setup, p, Save, p')
    ensures Inv(setup, p')
  {
    SameFiles(setup, p.h, p'.h, p.m.files);
  }

  lemma {:induction false} LoseStep(setup: Setup, p: Point, p': Point)
    requires Next(setup, p, Lose, p')
    ensures p'.h == p.h && p'.m == p.m.(pending := Idle)
  {
  }

  lemma {:induction false} KeepLose(setup: Setup, p: Point, p': Point)
    requires SetupOk(setup) && Inv(setup, p) && Next(setup, p, Lose, p')
    ensures Inv(setup, p')
  {
    LoseStep(setup, p, p');
    InvPending(setup, p, p', Idle);
  }

  /** A saved report is right for the nodes of the new run as well. */
  lemma {:induction false} SavedAgain(setup: Setup, r: Results, nodes: seq<Node>, nodes': seq<Node>, seen: Seen, at: nat)
    requires Shape(setup, nodes) && Shape(setup, nodes') && at < |nodes| && at < |nodes'|
    requires forall i :: 0 <= i <= at ==> nodes'[i] == nodes[i]
    requires ReportOf(setup, r, nodes, Upto(seen, at))
    ensures ReportOf(setup, r, nodes', Upto(seen, at))
  {
    forall i: nat | 0 < i < |nodes'| && Differs(Upto(seen, at), i)
      ensures HasEntry(setup, r, nodes'[i], Upto(seen, at)[i].verdict)
    {
      assert HasEntry(setup, r, nodes[i], Upto(seen, at)[i].verdict);
    }
    forall t: Table, key: string | t in r && key in r[t].chunkMap
      ensures Explained(setup, nodes', Upto(seen, at), t, key)
    {
      var i := EntryOwner(setup, r, nodes, Upto(seen, at), t, key);
      assert i <= at;
    }
  }

  /** Tables without a loaded result start with an empty one. */
  lemma {:induction false} FreshBelow(setup: Setup, r: Results, nodes: seq<Node>, seen: Seen)
    requires Shape(setup, nodes) && ReportOf(setup, r, nodes, seen)
    ensures ReportOf(setup, Fresh(setup.tables) + r, nodes, seen) && KnowsTables(setup, Fresh(setup.tables) + r)
  {
    var r' := Fresh(setup.tables) + r;
    forall i: nat | 0 < i < |nodes| && Differs(seen, i)
      ensures HasEntry(setup, r', nodes[i], seen[i].verdict)
    {
      assert HasEntry(setup, r, nodes[i], seen[i].verdict);
    }
    forall t: Table, key: string | t in r' && key in r'[t].chunkMap
      ensures Explained(setup, nodes, seen, t, key)
    {
      assert t in r && key in r[t].chunkMap;
    }
  }

  lemma {:induction false} CrashReport(setup: Setup, h: History, h': History, saved: Option<Saved>)
    requires Shape(setup, h.nodes) && Resumed(h, h') && Shape(setup, h'.nodes) && SavedOf(setup, h, saved)
    ensures From(saved) == h.nodes[h.at]
    ensures KnowsTables(setup, Loaded(setup, saved)) && ReportOf(setup, Loaded(setup, saved), h'.nodes, h'.seen)
  {
    if h.at == 0 {
      assert forall i: nat :: i > 0 ==> !Differs(h'.seen, i);
      FreshBelow(setup, map[], h'.nodes, h'.seen);
    } else {
      SavedAgain(setup, saved.value.report.value, h.nodes, h'.nodes, h.seen, h.at);
      FreshBelow(setup, saved.value.report.value, h'.nodes, h'.seen);
    }
  }

  lemma {:induction false} UptoAgain(seen: Seen, k: nat)
    ensures Upto(Upto(seen, k), k) == Upto(seen, k)
  {
  }

  lemma {:induction false} CrashSaved(setup: Setup, h: History, h': History, saved: Option<Saved>)
    requires Shape(setup, h.nodes) && Resumed(h, h') && Shape(setup, h'.nodes) && SavedOf(setup, h, saved)
    ensures SavedOf(setup, h', saved)
  {
    if h.at > 0 {
      SavedAgain(setup, saved.value.report.value, h.nodes, h'.nodes, h.seen, h.at);
      UptoAgain(h.seen, h.at);
    }
  }

  lemma {:induction false} CrashSets(h: History, h': History)
    requires Sets(h) && Resumed(h, h')
    ensures Sets(h') && Agrees(h'.nodes, h'.finished, h'.pos, State(multiset{}, h'.nodes[h'.at]))
  {
    forall i | i in Positions(h.at)
      ensures i in h'.seen
    {
      SameUpto(h, h', i);
    }
    assert Later(h'.finished, h'.at) == {};
  }

  lemma {:induction false} KeepCrash(setup: Setup, p: Point, p': Point, more: seq<Node>)
    requires SetupOk(setup) && Inv(setup, p) && Next(setup, p, Crash(more), p')
    ensures Inv(setup, p')
  {
    assert Resumed(p.h, p'.h);
    CrashReport(setup, p.h, p'.h, p.m.saved);
    CrashSaved(setup, p.h, p'.h, p.m.saved);
    CrashFiles(setup, p.h, p'.h, p.m.files);
    CrashSets(p.h, p'.h);
  }

  lemma {:induction false} KeepStep(setup: Setup, p: Point, e: Event, p': Point)
    requires SetupOk(setup) && Inv(setup, p) && Next(setup, p, e, p')
    ensures Inv(setup, p')
  {
    match e
    case Consume(i, f) => KeepConsume(setup, p, p', i, f);
    case Write(i) => KeepWrite(setup, p, p', i);
    case Insert(i) => KeepInsert(setup, p, p', i);
    case Pop => KeepPop(setup, p, p');
    case Snap => KeepSnap(setup, p, p');
    case Save => KeepSave(setup, p, p');
    case Lose => KeepLose(setup, p, p');
    case Crash(more) => KeepCrash(setup, p, p', more);
  }

  lemma {:induction false} InitInv(setup: Setup, p: Point)
    requires Init(setup, p)
    ensures Inv(setup, p)
  {
    assert Later({}, 0) == {};
  }

  /** The invariant holds in every state of every run, whatever the interleaving and wherever it crashes. */
  lemma {:induction false} Always(setup: Setup, events: seq<Event>, p: Point)
    requires SetupOk(setup) && Reachable(setup, events, p)
    ensures Inv(setup, p)
  {
    if events == [] {
      InitInv(setup, p);
    } else {
      var before, e := events[..|events| - 1], events[|events| - 1];
      var p0 :| Reachable(setup, before, p0) && Next(setup, p0, e, p);
      Always(setup, before, p0);
      KeepStep(setup, p0, e, p);
    }
  }

  lemma {:induction false} AlwaysShaped(setup: Setup, events: seq<Event>, p: Point)
    requires SetupOk(setup) && Reachable(setup, events, p)
    ensures Shape(setup, p.h.nodes)
  {
    Always(setup, events, p);
  }

  // ---------- What follows ----------

  /**
   * Right after a restart: the report holds exactly the chunks up to the saved one that differed, each with the counts
   * it was given, and the fix directory holds exactly their fix files; every one of those chunks had been compared.
   */
  lemma {:induction false} CrashConsistent(setup: Setup, events: seq<Event>, p: Point, more: seq<Node>, p': Point)
    requires SetupOk(setup) && Reachable(setup, events, p) && Next(setup, p, Crash(more), p')
    ensures Shape(setup, p'.h.nodes) && p'.h.at == p.h.at < |p'.h.nodes| && p'.m.current == p'.h.nodes[p.h.at] == p.h.nodes[p.h.at]
    ensures forall i: nat :: i in p'.h.seen <==> 0 < i <= p.h.at
    ensures forall i: nat :: i in p'.h.seen ==> i in p.h.seen && p'.h.seen[i] == p.h.seen[i] && i in p.h.written && i in p.h.finished
    ensures ReportOf(setup, p'.m.report, p'.h.nodes, p'.h.seen)
    ensures FilesOf(setup, p'.h, p'.m.files)
  {
    Always(setup, events, p);
    KeepStep(setup, p, Crash(more), p');
    forall i: nat | 0 < i <= p.h.at
      ensures i in p.h.finished && i in p.h.seen
    {
      assert i in Positions(p.h.pos);
    }
  }

  /** In no state does a write find a file of its name, a restart fail on a file name, or a snapshot fail on a key. */
  lemma {:induction false} NothingFails(setup: Setup, events: seq<Event>, p: Point)
    requires SetupOk(setup) && Reachable(setup, events, p)
    ensures !p.m.fatal && !RemovalFails(setup, p.m.files)
    ensures forall t: Table :: SnapshotOk(p.m.report, t)
    ensures p.m.saved.Some? ==> p.m.saved.value.report.Some?
  {
    Always(setup, events, p);
    RemovalWorks(setup, p.h, p.m.files);
    forall t: Table
      ensures SnapshotOk(p.m.report, t)
    {
      ReportParses(setup, p.m.report, p.h.nodes, p.h.seen, t);
    }
  }

  /**
   * Over any number of crashes, the chunks in the checkpoint and those of the current run together cover every table
   * they reach: a row without NULL is in exactly one of them, provided none of them turns back.
   */
  lemma {:induction false} TablesCovered(setup: Setup, events: seq<Event>, p: Point, t: int, row: RowKey)
    requires SetupOk(setup) && Reachable(setup, events, p)
    requires p.h.nodes != [] && LastOfTable(p.h.nodes[|p.h.nodes| - 1]) && 0 <= t <= p.h.nodes[|p.h.nodes| - 1].id.table
    requires var ivs := OfTable(p.h.nodes, t); Widths(ivs, |row|) && AllOrdered(ivs) && NonNull(row)
    ensures Hits(OfTable(p.h.nodes, t), row) == 1
  {
    AlwaysShaped(setup, events, p);
    TableOnce(p.h.nodes, t, row);
  }

  lemma {:induction false} TableOnce(nodes: seq<Node>, t: int, row: RowKey)
    requires Path(nodes) && nodes != [] && nodes[0] == INIT_NODE
    requires LastOfTable(nodes[|nodes| - 1]) && 0 <= t <= nodes[|nodes| - 1].id.table
    requires Widths(OfTable(nodes, t), |row|) && AllOrdered(OfTable(nodes, t)) && NonNull(row)
    ensures Hits(OfTable(nodes, t), row) == 1
  {
    TableChain(nodes, t);
    WholeChainOnce(OfTable(nodes, t), row);
  }

  /** One chunk for each of the first tables. */
  function WholeTables(n: nat): seq<Node> {
    seq(n, i requires 0 <= i < n => Node(ChunkID(i, 0, 0, 0, 1), Interval(None, None), false, false))
  }

  lemma {:induction false} WholeTablesShape(setup: Setup, n: nat)
    requires 0 < n <= |setup.tables| && |setup.tables| <= Text.MAX_INT
    ensures Shape(setup, [INIT_NODE] + WholeTables(n))
  {
    var nodes := [INIT_NODE] + WholeTables(n);
    forall i | 0 <= i < |nodes| - 1
      ensures Continues(nodes[i], nodes[i + 1])
    {
    }
    PathFrom(nodes);
  }

  /** A file that is in the trash by its path stays when a run starts again. */
  lemma {:induction false} TrashStays(setup: Setup, n: Node)
    requires Emitted(setup, n) && TrashName(setup, TableOf(setup, n))
    ensures InTrash(setup, NameOf(setup, n))
  {
    var t := TableOf(setup, n);
    var path, rest := setup.dir + "/" + (t.schema + ":" + t.name), ":" + GetSQLFileName(n.id) + ".sql";
    PathParts(setup.dir, t.schema, t.name, GetSQLFileName(n.id));
    var i :| 0 <= i <= |path| && Occurs(path, ".trash", i);
    assert (path + rest)[i..i + 6] == path[i..i + 6];
    assert Occurs(path + rest, ".trash", i);
  }

  ghost predicate CanReach(setup: Setup, p: Point) {
    exists events :: Reachable(setup, events, p)
  }

  lemma {:induction false} OneMore(setup: Setup, p: Point, e: Event, p': Point)
    requires CanReach(setup, p) && Next(setup, p, e, p')
    ensures CanReach(setup, p')
  {
    var events :| Reachable(setup, events, p);
    assert (events + [e])[..|events|] == events;
    assert Reachable(setup, events + [e], p');
  }

  /** Comparing a chunk and writing its fix file: fatal if there is a file of its name. */
  lemma {:induction false} ConsumeThenWrite(setup: Setup, p: Point, i: nat, f: Finding) returns (p': Point)
    requires CanReach(setup, p) && f.hasSql && !p.m.fatal
    requires 0 < i < |p.h.nodes| && i !in p.h.seen && i !in p.h.written
    requires Emitted(setup, p.h.nodes[i]) && TableOf(setup, p.h.nodes[i]) in p.m.report
    ensures CanReach(setup, p')
    ensures p'.m.fatal <==> NameOf(setup, p.h.nodes[i]) in p.m.files
    ensures p'.m.files == p.m.files + {NameOf(setup, p.h.nodes[i])}
    ensures p'.h == p.h.(seen := p.h.seen[i := f], written := p.h.written + {i}) && p'.m.saved == p.m.saved
  {
    var n := p.h.nodes[i];
    var t := TableOf(setup, n);
    var m1 := p.m.(report := p.m.report[t := WithVerdict(p.m.report[t], f.verdict, n.id)]);
    var p1 := Point(p.h.(seen := p.h.seen[i := f]), m1);
    OneMore(setup, p, Consume(i, f), p1);
    var m2 := if NameOf(setup, n) in m1.files then m1.(fatal := true) else m1.(files := m1.files + {NameOf(setup, n)});
    p' := Point(p1.h.(written := p.h.written + {i}), m2);
    OneMore(setup, p1, Write(i), p');
  }

  /** A run that starts over with the files of an earlier one. */
  function StartOver(setup: Setup, nodes: seq<Node>, files: set<string>): Point {
    Point(History(nodes, 0, 0, map[], {}, {}, 0, {}, {}, {}), Machine(Loaded(setup, None), multiset{}, INIT_NODE, Idle, None, files, false))
  }

  /** A crash before anything was saved, where no file can be moved away: the run starts over, the files stay. */
  lemma {:induction false} TrashCrash(setup: Setup, p: Point, more: seq<Node>)
    requires p.h.at == 0 && p.h.nodes == [INIT_NODE] + more && Shape(setup, p.h.nodes) && p.m.saved == None && p.h.kept == {}
    requires (forall f :: f in p.m.files ==> InTrash(setup, f)) && 0 !in p.h.seen
    ensures Next(setup, p, Crash(more), StartOver(setup, p.h.nodes, p.m.files))
  {
    assert p.h.nodes[..1] + more == p.h.nodes;
    assert Remaining(setup, p.m.files, INIT_NODE.id) == p.m.files;
    assert Upto(p.h.seen, 0) == map[];
  }

  lemma {:induction false} FreshStart(setup: Setup, more: seq<Node>)
    requires Shape(setup, [INIT_NODE] + more)
    ensures CanReach(setup, StartOver(setup, [INIT_NODE] + more, {}))
  {
    assert Fresh(setup.tables) + map[] == Fresh(setup.tables);
    assert Reachable(setup, [], StartOver(setup, [INIT_NODE] + more, {}));
  }

  ghost predicate CanRepeat(setup: Setup) {
    exists p :: CanReach(setup, p) && p.m.fatal
  }

  /** With such a name, a chunk compared and written before a crash and again after it repeats its file. */
  lemma {:induction false} TrashRepeats(setup: Setup, k: nat)
    requires k < |setup.tables| <= Text.MAX_INT && TrashName(setup, setup.tables[k])
    ensures CanRepeat(setup)
  {
    var more := WholeTables(k + 1);
    var nodes := [INIT_NODE] + more;
    WholeTablesShape(setup, k + 1);
    assert nodes[k + 1] == more[k];
    RepeatAt(setup, more, k + 1);
  }

  lemma {:induction false} RepeatAt(setup: Setup, more: seq<Node>, i: nat)
    requires Shape(setup, [INIT_NODE] + more) && 0 < i <= |more|
    requires TrashName(setup, TableOf(setup, ([INIT_NODE] + more)[i]))
    ensures CanRepeat(setup)
  {
    var nodes := [INIT_NODE] + more;
    var f := Finding(Verdict(false, 1, 0, 1, 0), true);
    var p0 := StartOver(setup, nodes, {});
    FreshStart(setup, more);
    TrashStays(setup, nodes[i]);
    var p1 := ConsumeThenWrite(setup, p0, i, f);
    TrashCrash(setup, p1, more);
    var p2 := StartOver(setup, nodes, p1.m.files);
    OneMore(setup, p1, Crash(more), p2);
    var p3 := ConsumeThenWrite(setup, p2, i, f);
  }

  /** The fatal error on a repeated file can be reached if and only if some table's name contains the trash marker. */
  lemma {:induction false} RepeatIffTrash(setup: Setup)
    requires SortedTables(setup.tables) && |setup.tables| <= Text.MAX_INT
    requires forall t :: t in setup.tables ==> ':' !in t.schema && ':' !in t.name
    ensures CanRepeat(setup) <==> exists t :: t in setup.tables && TrashName(setup, t)
  {
    if t :| t in setup.tables && TrashName(setup, t) {
      var k :| 0 <= k < |setup.tables| && setup.tables[k] == t;
      TrashRepeats(setup, k);
    } else {
      forall p | CanReach(setup, p)
        ensures !p.m.fatal
      {
        var events :| Reachable(setup, events, p);
        Always(setup, events, p);
      }
    }
  }

  // ---------- When a restart fails ----------

  /** A state in which the removal of later files fails on a file's name, so that no restart succeeds. */
  ghost predicate CanStall(setup: Setup) {
    exists p :: CanReach(setup, p) && RemovalFails(setup, p.m.files)
  }

  /** Every file is that of a chunk some producer can emit. */
  ghost predicate AllNamed(setup: Setup, files: set<string>) {
    forall f :: f in files ==> exists n: Node :: Emitted(setup, n) && NameOf(setup, n) == f
  }

  lemma {:induction false} FilesStep(setup: Setup, p: Point, e: Event, p': Point)
    requires Next(setup, p, e, p')
    ensures p'.m.files <= p.m.files ||
            (e.Write? && e.i < |p.h.nodes| && Emitted(setup, p.h.nodes[e.i]) && p'.m.files == p.m.files + {NameOf(setup, p.h.nodes[e.i])})
  {
  }

  lemma {:induction false} AlwaysNamed(setup: Setup, events: seq<Event>, p: Point)
    requires Reachable(setup, events, p)
    ensures AllNamed(setup, p.m.files)
    decreases |events|
  {
    if events != [] {
      var before, e := events[..|events| - 1], events[|events| - 1];
      var p0 :| Reachable(setup, before, p0) && Next(setup, p0, e, p);
      AlwaysNamed(setup, before, p0);
      FilesStep(setup, p0, e, p);
    }
  }

  /** The file of a chunk of such a table stops the restart. */
  lemma {:induction false} IllegibleFails(setup: Setup, n: Node, files: set<string>)
    requires Emitted(setup, n) && NameOf(setup, n) in files
    requires !TrashName(setup, TableOf(setup, n)) && !Legible(TableOf(setup, n).schema, TableOf(setup, n).name)
    ensures RemovalFails(setup, files)
  {
    NotInTrash(setup, n);
    LegibleIff(TableOf(setup, n).schema, TableOf(setup, n).name, n.id);
  }

  lemma {:induction false} LegibleStarts(setup: Setup, files: set<string>)
    requires AllNamed(setup, files)
    requires forall t :: t in setup.tables ==> TrashName(setup, t) || Legible(t.schema, t.name)
    ensures !RemovalFails(setup, files)
  {
    forall f | f in files && !InTrash(setup, f)
      ensures FileChunk(f).Ok?
    {
      var n: Node :| Emitted(setup, n) && NameOf(setup, n) == f;
      var t := TableOf(setup, n);
      assert t in setup.tables;
      if TrashName(setup, t) {
        TrashStays(setup, n);
      }
      LegibleIff(t.schema, t.name, n.id);
    }
  }

  lemma {:induction false} IllegibleStalls(setup: Setup, k: nat)
    requires k < |setup.tables| <= Text.MAX_INT
    requires !TrashName(setup, setup.tables[k]) && !Legible(setup.tables[k].schema, setup.tables[k].name)
    ensures CanStall(setup)
  {
    var more := WholeTables(k + 1);
    var nodes := [INIT_NODE] + more;
    WholeTablesShape(setup, k + 1);
    assert nodes[k + 1] == more[k];
    FreshStart(setup, more);
    var p := ConsumeThenWrite(setup, StartOver(setup, nodes, {}), k + 1, Finding(Verdict(false, 1, 0, 1, 0), true));
    IllegibleFails(setup, nodes[k + 1], p.m.files);
  }

  /**
   * Whatever the names: a state from which no restart succeeds can be reached if and only if some table has names that are
   * not legible in a file name and do not put its files into the trash.
   */
  lemma {:induction false} StallIff(setup: Setup)
    requires |setup.tables| <= Text.MAX_INT
    ensures CanStall(setup) <==> exists t :: t in setup.tables && !TrashName(setup, t) && !Legible(t.schema, t.name)
  {
    if t :| t in setup.tables && !TrashName(setup, t) && !Legible(t.schema, t.name) {
      var k :| 0 <= k < |setup.tables| && setup.tables[k] == t;
      IllegibleStalls(setup, k);
    } else {
      forall p | CanReach(setup, p)
        ensures !RemovalFails(setup, p.m.files)
      {
        var events :| Reachable(setup, events, p);
        AlwaysNamed(setup, events, p);
        LegibleStarts(setup, p.m.files);
      }
    }
  }
}
