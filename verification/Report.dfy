/**
 * The report (sync_diff_inspector/report/report.go): per table, what was found in each chunk that differed.  A snapshot
 * of it goes into the checkpoint, cut down to the chunks up to the saved one.
 */
module Reports {
  import opened Wrappers
  import opened Chunks
  import opened FileNames

  datatype Table = Table(schema: string, name: string)

  datatype ChunkResult = ChunkResult(rowsAdd: int, rowsDelete: int)

  datatype TableResult = TableResult(dataEqual: bool, upCount: int, downCount: int, chunkMap: map<string, ChunkResult>)

  type Results = map<Table, TableResult>

  /** What comparing one chunk gave. */
  datatype Verdict = Verdict(equal: bool, rowsAdd: int, rowsDelete: int, upCount: int, downCount: int)

  // ---------- The order of tables ----------

  function EscapeName(name: string): string {
    if name == "" then "" else (if name[0] == '`' then "``" else [name[0]]) + EscapeName(name[1..])
  }

  function UniqueID(t: Table): string {
    "`" + EscapeName(t.schema) + "`.`" + EscapeName(t.name) + "`"
  }

  /** Go's `<=` on strings. */
  predicate TextLeq(a: string, b: string) {
    a == "" || (b != "" && (a[0] < b[0] || (a[0] == b[0] && TextLeq(a[1..], b[1..]))))
  }

  lemma {:induction false} TextLeqReflexive(a: string)
    ensures TextLeq(a, a)
  {
    if a != "" {
      TextLeqReflexive(a[1..]);
    }
  }

  lemma {:induction false} TextLeqTotal(a: string, b: string)
    ensures TextLeq(a, b) || TextLeq(b, a)
  {
    if a != "" && b != "" {
      TextLeqTotal(a[1..], b[1..]);
    }
  }

  /** The first difference decides; a text is before every longer one that it starts. */
  lemma {:induction false} TextLeqDecides(p: string, c: char, x: string, d: char, y: string)
    requires c < d
    ensures TextLeq(p + [c] + x, p + [d] + y) && !TextLeq(p + [d] + y, p + [c] + x)
    ensures TextLeq(p, p + [c] + x) && !TextLeq(p + [c] + x, p)
  {
    if p != "" {
      assert (p + [c] + x)[1..] == p[1..] + [c] + x && (p + [d] + y)[1..] == p[1..] + [d] + y;
      TextLeqDecides(p[1..], c, x, d, y);
    }
  }

  /** A quoted name ends at the first backtick that is not doubled. */
  lemma {:induction false} QuotedEnds(a: string, x: string, b: string, y: string)
    requires EscapeName(a) + "`" + x == EscapeName(b) + "`" + y
    requires (x == "" || x[0] != '`') && (y == "" || y[0] != '`')
    ensures a == b && x == y
  {
    var s, t := EscapeName(a) + "`" + x, EscapeName(b) + "`" + y;
    QuotedHead(a, x);
    QuotedHead(b, y);
    if a != "" && b != "" {
      var k := if a[0] == '`' then 2 else 1;
      assert s[k..] == EscapeName(a[1..]) + "`" + x && t[k..] == EscapeName(b[1..]) + "`" + y;
      QuotedEnds(a[1..], x, b[1..], y);
    }
  }

  /** What a quoted name and what follows it starts with. */
  lemma {:induction false} QuotedHead(a: string, x: string)
    requires x == "" || x[0] != '`'
    ensures var s := EscapeName(a) + "`" + x;
            && s != "" && (a == "" ==> s[1..] == x && s[0] == '`' && (|s| > 1 ==> s[1] != '`'))
            && (a != "" && a[0] != '`' ==> s[0] == a[0] && s[1..] == EscapeName(a[1..]) + "`" + x)
            && (a != "" && a[0] == '`' ==> |s| > 1 && s[0] == '`' == s[1] && s[2..] == EscapeName(a[1..]) + "`" + x)
  {
  }

  lemma {:induction false} Cancel(p: string, x: string, y: string)
    requires p + x == p + y
    ensures x == y
  {
    assert x == (p + x)[|p|..] && y == (p + y)[|p|..];
  }

  lemma {:induction false} UniqueIDParts(t: Table)
    ensures UniqueID(t) == "`" + (EscapeName(t.schema) + "`" + (".`" + (EscapeName(t.name) + "`" + "")))
  {
    var a, b := EscapeName(t.schema), EscapeName(t.name);
    assert "`.`" == "`" + ".`";
    assert "`" + a + "`.`" + b + "`" == "`" + (a + "`" + (".`" + (b + "`" + "")));
  }

  /** Different tables have different identifiers, whatever their names contain. */
  lemma {:induction false} UniqueIDInjective(t: Table, u: Table)
    requires UniqueID(t) == UniqueID(u)
    ensures t == u
  {
    var m, n := EscapeName(t.name) + "`" + "", EscapeName(u.name) + "`" + "";
    UniqueIDParts(t);
    UniqueIDParts(u);
    Cancel("`", EscapeName(t.schema) + "`" + (".`" + m), EscapeName(u.schema) + "`" + (".`" + n));
    QuotedEnds(t.schema, ".`" + m, u.schema, ".`" + n);
    Cancel(".`", m, n);
    QuotedEnds(t.name, "", u.name, "");
  }

  /** Tables in the order the program sorts them: identifiers never increase. */
  predicate SortedTables(tables: seq<Table>) {
    forall i, j :: 0 <= i < j < |tables| ==> TextLeq(UniqueID(tables[j]), UniqueID(tables[i]))
  }

  // ---------- Specification ----------

  function Plus(m: map<string, ChunkResult>, key: string, add: int, del: int): map<string, ChunkResult> {
    var was := if key in m then m[key] else ChunkResult(0, 0);
    m[key := ChunkResult(was.rowsAdd + add, was.rowsDelete + del)]
  }

  /** The table's result after one chunk's verdict; an equal chunk leaves no entry. */
  function WithVerdict(r: TableResult, v: Verdict, id: ChunkID): TableResult {
    var counted := r.(upCount := r.upCount + v.upCount, downCount := r.downCount + v.downCount);
    if v.equal then counted
    else counted.(dataEqual := false, chunkMap := Plus(r.chunkMap, ToString(id), v.rowsAdd, v.rowsDelete))
  }

  predicate AllParse(m: map<string, ChunkResult>) {
    forall key :: key in m ==> FromString(key).Ok?
  }

  predicate KeyUpTo(key: string, id: ChunkID) {
    FromString(key).Ok? && Compare(FromString(key).value, id) <= 0
  }

  /** The entries of chunks up to `id`. */
  function UpToChunk(m: map<string, ChunkResult>, id: ChunkID): map<string, ChunkResult> {
    map key | key in m && KeyUpTo(key, id) :: m[key]
  }

  predicate Reserved(t: Table, target: Table) {
    TextLeq(UniqueID(target), UniqueID(t))
  }

  predicate SnapshotOk(results: Results, target: Table) {
    forall t :: t in results && Reserved(t, target) ==> AllParse(results[t].chunkMap)
  }

  function CutDown(r: TableResult, id: ChunkID): TableResult {
    TableResult(r.dataEqual, 0, 0, UpToChunk(r.chunkMap, id))
  }

  /** What a snapshot keeps: the tables not behind the target, each with its chunks up to `id`. */
  function Snapshot(results: Results, target: Table, id: ChunkID): Results {
    map t | t in results && Reserved(t, target) :: CutDown(results[t], id)
  }

  function Fresh(tables: seq<Table>): Results {
    map t | t in tables :: TableResult(true, 0, 0, map[])
  }

  lemma {:induction false} SameMap<K, V>(a: map<K, V>, b: map<K, V>)
    requires a.Keys == b.Keys && forall k :: k in a ==> a[k] == b[k]
    ensures a == b
  {
  }

  lemma {:induction false} MoveOver<K, V>(a: map<K, V>, b: map<K, V>, k: K)
    requires k in b
    ensures a[k := b[k]] + (b - {k}) == a + b
  {
    SameMap(a[k := b[k]] + (b - {k}), a + b);
  }

  // ---------- The object ----------

  class Report {
    var tableResults: Results

    constructor ()
      ensures tableResults == map[]
    {
      tableResults := map[];
    }

    method Init(tables: seq<Table>)
      modifies this
      ensures tableResults == old(tableResults) + Fresh(tables)
    {
      ghost var was := tableResults;
      for i := 0 to |tables|
        invariant tableResults == was + Fresh(tables[..i])
      {
        assert tables[..i + 1] == tables[..i] + [tables[i]];
        tableResults := tableResults[tables[i] := TableResult(true, 0, 0, map[])];
      }
      assert tables[..|tables|] == tables;
    }

    /** Counts the rows of one chunk, and records its differences if there are any. */
    method SetTableDataCheckResult(t: Table, equal: bool, rowsAdd: int, rowsDelete: int, upCount: int, downCount: int, id: ChunkID)
      requires t in tableResults
      modifies this
      ensures tableResults ==
              old(tableResults)[t := WithVerdict(old(tableResults)[t], Verdict(equal, rowsAdd, rowsDelete, upCount, downCount), id)]
    {
      var result := tableResults[t];
      result := result.(upCount := result.upCount + upCount);
      result := result.(downCount := result.downCount + downCount);
      if !equal {
        result := result.(dataEqual := equal);
        var key := ToString(id);
        var chunks := result.chunkMap;
        if key !in chunks {
          chunks := chunks[key := ChunkResult(0, 0)];
        }
        chunks := chunks[key := chunks[key].(rowsAdd := chunks[key].rowsAdd + rowsAdd)];
        chunks := chunks[key := chunks[key].(rowsDelete := chunks[key].rowsDelete + rowsDelete)];
        assert chunks == Plus(result.chunkMap, key, rowsAdd, rowsDelete);
        result := result.(chunkMap := chunks);
      }
      tableResults := tableResults[t := result];
    }

    /** Copies the report as far as the checkpoint may claim it; an entry that cannot be parsed is an error. */
    method GetSnapshot(id: ChunkID, target: Table) returns (snapshot: Option<Results>)
      ensures snapshot == if SnapshotOk(tableResults, target) then Some(Snapshot(tableResults, target, id)) else None
    {
      snapshot := CopyTables(tableResults, target, id);
    }

    /** Takes over the tables of a loaded report; the others stay as initialised. */
    method LoadReport(loaded: Results)
      modifies this
      ensures tableResults == old(tableResults) + loaded
    {
      ghost var was := tableResults;
      var todo := loaded;
      while todo != map[]
        invariant forall t :: t in todo ==> t in loaded && todo[t] == loaded[t]
        invariant tableResults + todo == was + loaded
        decreases |todo|
      {
        var t :| t in todo;
        MoveOver(tableResults, todo, t);
        tableResults := tableResults[t := todo[t]];
        todo := todo - {t};
      }
      assert tableResults + todo == tableResults;
    }
  }

  /** One table's result, cut down. */
  method CopyTable(result: TableResult, id: ChunkID) returns (copied: Option<TableResult>)
    ensures copied == if AllParse(result.chunkMap) then Some(CutDown(result, id)) else None
  {
    var chunkRes := CopyChunks(result.chunkMap, id);
    if chunkRes.None? {
      return None;
    }
    return Some(TableResult(result.dataEqual, 0, 0, chunkRes.value));
  }

  /** The tables a snapshot keeps, visited in any order. */
  method CopyTables(results: Results, target: Table, id: ChunkID) returns (snapshot: Option<Results>)
    ensures snapshot == if SnapshotOk(results, target) then Some(Snapshot(results, target, id)) else None
  {
    var reserveMap: Results := map[];
    var todo := results.Keys;
    ghost var goal := Snapshot(results, target, id);
    while todo != {}
      invariant todo <= results.Keys
      invariant forall t :: t in results && t !in todo && Reserved(t, target) ==> AllParse(results[t].chunkMap)
      invariant reserveMap.Keys == goal.Keys - todo
      invariant forall t :: t in reserveMap ==> reserveMap[t] == goal[t]
      decreases todo
    {
      var t :| t in todo;
      todo := todo - {t};
      if Reserved(t, target) {
        var copied := CopyTable(results[t], id);
        if copied.None? {
          return None;
        }
        reserveMap := reserveMap[t := copied.value];
      }
    }
    SameMap(reserveMap, goal);
    return Some(reserveMap);
  }

  /** Whether an entry is kept; nothing for one that cannot be parsed. */
  function Keeps(key: string, id: ChunkID): Option<bool> {
    var sid := FromString(key);
    if sid.Ok? then Some(Compare(sid.value, id) <= 0) else None
  }

  lemma {:induction false} KeepsUpTo(key: string, id: ChunkID)
    ensures Keeps(key, id).Some? <==> FromString(key).Ok?
    ensures Keeps(key, id) == Some(true) <==> KeyUpTo(key, id)
  {
  }

  /** The entries that are kept. */
  function Kept<K, V>(m: map<K, V>, keeps: K -> Option<bool>): map<K, V> {
    map key | key in m && keeps(key) == Some(true) :: m[key]
  }

  predicate Answered<K, V>(m: map<K, V>, keeps: K -> Option<bool>) {
    forall key :: key in m ==> keeps(key).Some?
  }

  lemma {:induction false} KeptUpTo(m: map<string, ChunkResult>, id: ChunkID, keeps: string -> Option<bool>)
    requires forall key :: keeps(key) == Keeps(key, id)
    ensures Kept(m, keeps) == UpToChunk(m, id)
  {
    var a, b := Kept(m, keeps), UpToChunk(m, id);
    forall key: string
      ensures key in a <==> key in b
    {
      KeepsUpTo(key, id);
    }
    SameMap(a, b);
  }

  lemma {:induction false} AnsweredParse(m: map<string, ChunkResult>, id: ChunkID, keeps: string -> Option<bool>)
    requires forall key :: keeps(key) == Keeps(key, id)
    ensures Answered(m, keeps) <==> AllParse(m)
  {
    forall key | key in m
      ensures keeps(key).Some? <==> FromString(key).Ok?
    {
      KeepsUpTo(key, id);
    }
  }

  /** The entries of one table up to a chunk. */
  method CopyChunks(m: map<string, ChunkResult>, id: ChunkID) returns (chunkRes: Option<map<string, ChunkResult>>)
    ensures chunkRes == if AllParse(m) then Some(UpToChunk(m, id)) else None
  {
    var keeps := (key: string) => Keeps(key, id);
    KeptUpTo(m, id, keeps);
    AnsweredParse(m, id, keeps);
    chunkRes := CopyEntries(m, keeps);
  }

  /** The entries, visited in any order, up to the first without an answer. */
  method CopyEntries<K, V>(m: map<K, V>, keeps: K -> Option<bool>) returns (copied: Option<map<K, V>>)
    ensures copied == if Answered(m, keeps) then Some(Kept(m, keeps)) else None
  {
    var kept: map<K, V> := map[];
    var todo := m.Keys;
    ghost var goal := Kept(m, keeps);
    while todo != {}
      invariant todo <= m.Keys && forall key :: key in m && key !in todo ==> keeps(key).Some?
      invariant kept.Keys == goal.Keys - todo
      invariant forall key :: key in kept ==> kept[key] == goal[key]
      decreases todo
    {
      var key :| key in todo;
      todo := todo - {key};
      var keep := keeps(key);
      if keep.None? {
        return None;
      }
      if keep.value {
        kept := kept[key := m[key]];
      }
    }
    SameMap(kept, goal);
    return Some(kept);
  }
}
