/**
 * The table rule selector (pkg/table-rule-selector/trie_selector.go): rules for schema patterns and for pairs of schema
 * and table patterns, looked up by name through a cache.  The selector object holds the trie and the cache; a coherent
 * cache has for every name what a walk through the trie gives now.
 */
module Selectors {
  import opened Sequences
  import opened Wrappers
  import opened Patterns
  import opened Runes
  import opened Trie

  datatype InsertType = Insert | Replace | Append

  // ---------- Changes of the trie ----------

  function SetRules(rules: seq<Rule>): Change { (i: Item) => i.(rule := rules) }

  function SetNext(next: Node): Change { (i: Item) => i.(next := Some(next)) }

  function Keep(): Change { (i: Item) => i }

  /** Inserting into one trie; without a rule only the path is made.  A bad pattern leaves the path up to its star. */
  function InsertAt(n: Node, pattern: string, rule: Option<Rule>, insertType: InsertType): (bool, Node)
    requires pattern != ""
  {
    ParseShape(pattern);
    match Parse(pattern)
    case Bad(path) => (false, Update(n, path, Keep()))
    case Good(path) =>
      var had := RuleAt(n, path);
      if rule.None? then (true, Update(n, path, Keep()))
      else if insertType == Insert && had != [] then (false, Update(n, path, Keep()))
      else if insertType == Replace then (true, Update(n, path, SetRules([rule.value])))
      else (true, Update(n, path, SetRules(had + [rule.value])))
  }

  function NextOrEmpty(n: Node, path: Path): Node
    requires path != []
  {
    if NextAt(n, path).Some? then NextAt(n, path).value else EMPTY
  }

  /** Inserting a rule for a pair of patterns: the schema's path is made first, then the table's below it. */
  function InsertPair(root: Node, schema: string, table: string, rule: Rule, insertType: InsertType): (bool, Node)
    requires schema != "" && table != ""
  {
    ParseShape(schema);
    match Parse(schema)
    case Bad(path) => (false, Update(root, path, Keep()))
    case Good(path) =>
      var (ok, next) := InsertAt(NextOrEmpty(root, path), table, Some(rule), insertType);
      (ok, Update(root, path, SetNext(next)))
  }

  /** Removing a rule: the trie without it, or nothing when there is no such rule. */
  function RemoveAt(n: Node, pattern: string): Option<Node>
    requires pattern != ""
  {
    ParseShape(pattern);
    match Parse(pattern)
    case Bad(_) => None
    case Good(path) => if RuleAt(n, path) == [] then None else Some(Update(n, path, SetRules([])))
  }

  function RemovePair(root: Node, schema: string, table: string): Option<Node>
    requires schema != "" && table != ""
  {
    ParseShape(schema);
    match Parse(schema)
    case Bad(_) => None
    case Good(path) =>
      if NextAt(root, path).None? then None
      else match RemoveAt(NextAt(root, path).value, table)
        case None => None
        case Some(next) => Some(Update(root, path, SetNext(next)))
  }

  // ---------- Operations ----------

  datatype Op =
    | InsertOp(schema: string, table: string, rule: Rule, insertType: InsertType)
    | RemoveOp(schema: string, table: string)

  /** What an operation answers, and the trie it leaves. */
  function TrieStep(root: Node, op: Op): (bool, Node) {
    if op.schema == "" then (false, root)
    else
      match op
      case InsertOp(schema, table, rule, insertType) =>
        if table == "" then InsertAt(root, schema, Some(rule), insertType) else InsertPair(root, schema, table, rule, insertType)
      case RemoveOp(schema, table) =>
        match if table == "" then RemoveAt(root, schema) else RemovePair(root, schema, table)
        case None => (false, root)
        case Some(root') => (true, root')
  }

  // ---------- Looking up ----------

  function TablesOf(table: string, wide: bool): Yield<Rule> {
    (i: Item) => if i.next.Some? then MatchWith(i.next.value, table, RulesOf(), wide) else []
  }

  /** A walk through the trie: the rules of the matching schemas, then those of the tables below them. */
  function Lookups(root: Node, schema: string, table: string, wide: bool): seq<Rule> {
    MatchWith(root, schema, RulesOf(), wide) + MatchWith(root, schema, TablesOf(table, wide), wide)
  }

  /** The key of the cache. */
  function QuoteSchemaTable(schema: string, table: string): string {
    if schema == "" then ""
    else if table != "" then "`" + schema + "`.`" + table + "`"
    else "`" + schema + "`"
  }

  const JOINT := "`.`"

  /** The key without its outer backticks. */
  function Joined(schema: string, table: string): string {
    if table == "" then schema else schema + JOINT + table
  }

  /** The second, longer schema takes in a joint of the first pair's key, or starts in the middle of one. */
  ghost predicate Overlaps(schema: string, table: string, schema': string, table': string) {
    && table != ""
    && if table' == "" then schema' == schema + JOINT + table
       else (schema' == schema + "`." && table == ".`" + table')
            || exists x: string :: schema' == schema + JOINT + x && table == x + JOINT + table'
  }

  /** Different pairs of names with one key: both of the empty schema, or one schema takes in a joint of the other's. */
  ghost predicate Confused(schema: string, table: string, schema': string, table': string) {
    if schema == "" || schema' == "" then schema == schema' && table != table'
    else Overlaps(schema, table, schema', table') || Overlaps(schema', table', schema, table)
  }

  lemma {:induction false} QuoteJoined(schema: string, table: string)
    requires schema != ""
    ensures QuoteSchemaTable(schema, table) == "`" + Joined(schema, table) + "`"
  {
    if table != "" {
      assert "`" + schema + "`.`" + table + "`" == "`" + (schema + JOINT + table) + "`";
    }
  }

  lemma {:induction false} Unquote(a: string, b: string)
    ensures "`" + a + "`" == "`" + b + "`" <==> a == b
  {
    assert ("`" + a + "`")[1..][..|a|] == a && ("`" + b + "`")[1..][..|b|] == b;
    if "`" + a + "`" == "`" + b + "`" {
      assert |"`" + a + "`"| == |a| + 2 && |"`" + b + "`"| == |b| + 2;
    }
  }

  lemma {:induction false} SameStart(a: string, b: string, c: string)
    ensures a + b == a + c <==> b == c
  {
    assert (a + b)[|a|..] == b && (a + c)[|a|..] == c;
  }

  /** What lies behind a common start. */
  lemma {:induction false} Split(a: string, b: string, c: string, d: string)
    requires |a| <= |c| && a + b == c + d
    ensures c == a + c[|a|..] && b == c[|a|..] + d
  {
    assert c == (c + d)[..|c|] == (a + b)[..|c|];
    assert (a + b)[|a|..] == b && (c + d)[|a|..] == c[|a|..] + d;
  }

  lemma {:induction false} OverlapsLonger(schema: string, table: string, schema': string, table': string)
    requires Overlaps(schema, table, schema', table')
    ensures |schema| < |schema'| && Joined(schema, table) == Joined(schema', table')
  {
    if table' != "" && !(schema' == schema + "`." && table == ".`" + table') {
      var x :| schema' == schema + JOINT + x && table == x + JOINT + table';
      assert schema + JOINT + (x + JOINT + table') == schema + JOINT + x + JOINT + table';
    } else if table' != "" {
      assert schema + JOINT + (".`" + table') == schema + "`." + JOINT + table';
    }
  }

  /** Two joints of one text: at the same place, two places on, or with a text between them. */
  lemma {:induction false} TwoJoints(y: string, table: string, table': string)
    requires JOINT + table == y + JOINT + table'
    ensures y == "" || (y == "`." && table == ".`" + table') || (|y| >= 3 && y[..3] == JOINT && table == y[3..] + JOINT + table')
  {
    var whole := JOINT + table;
    assert whole == y + (JOINT + table');
    assert table == whole[3..];
    assert whole[1] == '.';
    if |y| == 2 {
      assert y == whole[..2] == "`.";
      assert whole[3..] == (JOINT + table')[1..] == ".`" + table';
    } else if |y| >= 3 {
      assert y[..3] == whole[..3] == JOINT;
      assert whole[3..] == y[3..] + (JOINT + table');
    }
  }

  lemma {:induction false} JoinedOverlaps(schema: string, table: string, schema': string, table': string)
    requires Joined(schema, table) == Joined(schema', table') && |schema| <= |schema'|
    ensures (schema == schema' && table == table') || Overlaps(schema, table, schema', table')
  {
    if table == "" {
      assert table' != "" ==> |Joined(schema', table')| > |schema'|;
    } else if table' == "" {
      assert schema + JOINT + table == schema';
    } else {
      var y := schema'[|schema|..];
      assert schema + (JOINT + table) == schema + JOINT + table && schema' + (JOINT + table') == schema' + JOINT + table';
      Split(schema, JOINT + table, schema', JOINT + table');
      assert y + (JOINT + table') == y + JOINT + table';
      TwoJoints(y, table, table');
      if y == "" {
        SameStart(JOINT, table, table');
        assert schema + y == schema;
      } else if |y| >= 3 && y[..3] == JOINT {
        assert schema' == schema + JOINT + y[3..];
      }
    }
  }

  /** Two pairs of names share a key of the cache if and only if they are equal or confused. */
  lemma {:induction false} KeysIff(schema: string, table: string, schema': string, table': string)
    ensures QuoteSchemaTable(schema, table) == QuoteSchemaTable(schema', table') <==>
            (schema == schema' && table == table') || Confused(schema, table, schema', table')
  {
    if schema != "" {
      QuoteJoined(schema, table);
    }
    if schema' != "" {
      QuoteJoined(schema', table');
    }
    if schema != "" && schema' != "" {
      Unquote(Joined(schema, table), Joined(schema', table'));
      JoinedIff(schema, table, schema', table');
    }
  }

  lemma {:induction false} JoinedIff(schema: string, table: string, schema': string, table': string)
    ensures Joined(schema, table) == Joined(schema', table') <==>
            (schema == schema' && table == table') || Overlaps(schema, table, schema', table') || Overlaps(schema', table', schema, table)
  {
    if Joined(schema, table) == Joined(schema', table') {
      if |schema| <= |schema'| {
        JoinedOverlaps(schema, table, schema', table');
      } else {
        JoinedOverlaps(schema', table', schema, table);
      }
    } else {
      if Overlaps(schema, table, schema', table') {
        OverlapsLonger(schema, table, schema', table');
      }
      if Overlaps(schema', table', schema, table) {
        OverlapsLonger(schema', table', schema, table);
      }
    }
  }

  predicate Plain(name: string) { '`' !in name }

  lemma {:induction false} OverlapsTicked(schema: string, table: string, schema': string, table': string)
    requires Overlaps(schema, table, schema', table')
    ensures !Plain(schema')
  {
    OverlapsLonger(schema, table, schema', table');
    assert schema'[|schema|] == '`';
  }

  /** Schemas without backticks that are not empty tell all keys apart. */
  lemma {:induction false} QuoteInjective(schema: string, table: string, schema': string, table': string)
    requires schema != "" && Plain(schema) && schema' != "" && Plain(schema')
    requires QuoteSchemaTable(schema, table) == QuoteSchemaTable(schema', table')
    ensures schema == schema' && table == table'
  {
    KeysIff(schema, table, schema', table');
    if Overlaps(schema, table, schema', table') {
      OverlapsTicked(schema, table, schema', table');
    }
    if Overlaps(schema', table', schema, table) {
      OverlapsTicked(schema', table', schema, table);
    }
  }

  // ---------- What insertions keep ----------

  lemma {:induction false} LookupWf(n: Node, path: Path, inBracket: bool)
    requires Wf(n, inBracket) && path != []
    ensures Wf(NextOrEmpty(n, path), false)
    decreases |path|
  {
    EdgeWf(n, path[0], inBracket);
    if |path| > 1 && Edge(n, path[0]).Some? {
      LookupWf(Edge(n, path[0]).value.child, path[1..], inBracket || Opens(path[0]));
    }
  }

  lemma {:induction false} InsertWf(n: Node, pattern: string, rule: Option<Rule>, insertType: InsertType)
    requires Wf(n, false) && pattern != ""
    ensures Wf(InsertAt(n, pattern, rule, insertType).1, false)
  {
    ParseShape(pattern);
    var path := Parse(pattern).tokens;
    ParseLegible(pattern, false);
    UpdateWf(n, path, Keep(), false);
    if rule.Some? {
      UpdateWf(n, path, SetRules([rule.value]), false);
      UpdateWf(n, path, SetRules(RuleAt(n, path) + [rule.value]), false);
    }
  }

  lemma {:induction false} PairWf(root: Node, schema: string, table: string, rule: Rule, insertType: InsertType)
    requires Wf(root, false) && schema != "" && table != ""
    ensures Wf(InsertPair(root, schema, table, rule, insertType).1, false)
  {
    ParseShape(schema);
    var path := Parse(schema).tokens;
    ParseLegible(schema, false);
    UpdateWf(root, path, Keep(), false);
    LookupWf(root, path, false);
    var next := InsertAt(NextOrEmpty(root, path), table, Some(rule), insertType).1;
    InsertWf(NextOrEmpty(root, path), table, Some(rule), insertType);
    UpdateWf(root, path, SetNext(next), false);
  }

  lemma {:induction false} ShallowYields(table: string, wide: bool)
    ensures Shallow(RulesOf()) && Shallow(TablesOf(table, wide))
  {
  }

  /** Making a path changes no lookup. */
  lemma {:induction false} KeepsLookups(root: Node, path: Path, schema: string, table: string, wide: bool)
    requires path != []
    ensures Lookups(Update(root, path, Keep()), schema, table, wide) == Lookups(root, schema, table, wide)
  {
    ShallowYields(table, wide);
    UpdateKeeps(root, path, Keep(), schema, RulesOf(), wide);
    UpdateKeeps(root, path, Keep(), schema, TablesOf(table, wide), wide);
  }

  /** An insertion that fails, or has no rule, changes no match. */
  lemma {:induction false} FailedInsertKeeps(n: Node, pattern: string, rule: Option<Rule>, insertType: InsertType, s: string, wide: bool)
    requires pattern != "" && (!InsertAt(n, pattern, rule, insertType).0 || rule.None?)
    ensures MatchWith(InsertAt(n, pattern, rule, insertType).1, s, RulesOf(), wide) == MatchWith(n, s, RulesOf(), wide)
  {
    ParseShape(pattern);
    ShallowYields("", wide);
    UpdateKeeps(n, Parse(pattern).tokens, Keep(), s, RulesOf(), wide);
  }

  lemma {:induction false} FailedSchemaKeeps(root: Node, schema: string, rule: Option<Rule>, insertType: InsertType, name: string, table: string)
    requires schema != "" && !InsertAt(root, schema, rule, insertType).0
    ensures Lookups(InsertAt(root, schema, rule, insertType).1, name, table, true) == Lookups(root, name, table, true)
  {
    ParseShape(schema);
    KeepsLookups(root, Parse(schema).tokens, name, table, true);
  }

  lemma {:induction false} FailedPairKeeps(root: Node, schema: string, table: string, rule: Rule, insertType: InsertType, name: string, other: string)
    requires schema != "" && table != "" && !InsertPair(root, schema, table, rule, insertType).0
    ensures Lookups(InsertPair(root, schema, table, rule, insertType).1, name, other, true) == Lookups(root, name, other, true)
  {
    ParseShape(schema);
    var path := Parse(schema).tokens;
    if Parse(schema).Bad? {
      KeepsLookups(root, path, name, other, true);
    } else {
      var below := NextOrEmpty(root, path);
      var next := InsertAt(below, table, Some(rule), insertType).1;
      FailedInsertKeeps(below, table, Some(rule), insertType, other, true);
      ShallowYields(other, true);
      UpdateKeeps(root, path, SetNext(next), name, RulesOf(), true);
      UpdateKeeps(root, path, SetNext(next), name, TablesOf(other, true), true);
    }
  }

  lemma {:induction false} RemoveWf(n: Node, pattern: string)
    requires Wf(n, false) && pattern != "" && RemoveAt(n, pattern).Some?
    ensures Wf(RemoveAt(n, pattern).value, false)
  {
    ParseShape(pattern);
    ParseLegible(pattern, false);
    UpdateWf(n, Parse(pattern).tokens, SetRules([]), false);
  }

  lemma {:induction false} RemovePairWf(root: Node, schema: string, table: string)
    requires Wf(root, false) && schema != "" && table != "" && RemovePair(root, schema, table).Some?
    ensures Wf(RemovePair(root, schema, table).value, false)
  {
    ParseShape(schema);
    var path := Parse(schema).tokens;
    ParseLegible(schema, false);
    LookupWf(root, path, false);
    RemoveWf(NextAt(root, path).value, table);
    UpdateWf(root, path, SetNext(RemoveAt(NextAt(root, path).value, table).value), false);
  }

  // ---------- The selector ----------

  const MAX_CACHE_NUM := 1024

  type Cache = map<string, seq<Rule>>

  /** What is cached under the key of these names is what a walk gives for them now. */
  ghost predicate Right(root: Node, cache: Cache, schema: string, table: string) {
    QuoteSchemaTable(schema, table) in cache ==> cache[QuoteSchemaTable(schema, table)] == Lookups(root, schema, table, true)
  }

  /** The cache after an entry is added: all of it, or when there are too many all but any one. */
  ghost predicate Trimmed(full: Cache, cache: Cache) {
    if |full| <= MAX_CACHE_NUM then cache == full else exists key :: key in full && cache == full - {key}
  }

  /** One lookup: from the cache, or by a walk that is then cached. */
  ghost predicate Matched(root: Node, cache: Cache, schema: string, table: string, rules: seq<Rule>, cache': Cache) {
    var key := QuoteSchemaTable(schema, table);
    if key in cache then rules == cache[key] && cache' == cache
    else rules == Lookups(root, schema, table, true) && Trimmed(cache[key := rules], cache')
  }

  /** A lookup of names that are cached right is right, and leaves right what it is not confused with. */
  lemma {:induction false} MatchedRight(root: Node, cache: Cache, schema: string, table: string, rules: seq<Rule>, cache': Cache,
                                        schema': string, table': string)
    requires Matched(root, cache, schema, table, rules, cache')
    ensures Right(root, cache, schema, table) ==> rules == Lookups(root, schema, table, true)
    ensures Right(root, cache, schema', table') && !Confused(schema, table, schema', table') ==> Right(root, cache', schema', table')
  {
    KeysIff(schema, table, schema', table');
  }

  /** Of two confused names, asked one after the other, the second gets what was found for the first. */
  lemma {:induction false} ConfusedWrong(root: Node, cache: Cache, schema: string, table: string, rules: seq<Rule>, cache': Cache,
                                         schema': string, table': string, rules': seq<Rule>, cache'': Cache)
    requires Confused(schema, table, schema', table') && QuoteSchemaTable(schema, table) !in cache && |cache| < MAX_CACHE_NUM
    requires Matched(root, cache, schema, table, rules, cache') && Matched(root, cache', schema', table', rules', cache'')
    ensures rules' == rules == Lookups(root, schema, table, true)
  {
    KeysIff(schema, table, schema', table');
  }

  /** A change that fails leaves all lookups as they were. */
  lemma {:induction false} FailedKeeps(root: Node, op: Op, name: string, other: string)
    requires !TrieStep(root, op).0
    ensures Lookups(TrieStep(root, op).1, name, other, true) == Lookups(root, name, other, true)
  {
    if op.InsertOp? && op.schema != "" {
      if op.table == "" {
        FailedSchemaKeeps(root, op.schema, Some(op.rule), op.insertType, name, other);
      } else {
        FailedPairKeeps(root, op.schema, op.table, op.rule, op.insertType, name, other);
      }
    }
  }

  function ItemsOf(): Yield<Item> { (i: Item) => [i] }

  function FlatMap<R, Q>(s: seq<R>, f: R -> seq<Q>): seq<Q> {
    if s == [] then [] else f(s[0]) + FlatMap(s[1..], f)
  }

  lemma {:induction false} FlatMapAppend<R, Q>(a: seq<R>, b: seq<R>, f: R -> seq<Q>)
    ensures FlatMap(a + b, f) == FlatMap(a, f) + FlatMap(b, f)
  {
    if a == [] {
      assert a + b == b;
    } else {
      assert (a + b)[1..] == a[1..] + b;
      FlatMapAppend(a[1..], b, f);
    }
  }

  /** Matching for items and then asking each of them is matching for what they give. */
  lemma {:induction false} MatchItems<R>(n: Node, s: string, g: Yield<R>, wide: bool)
    ensures FlatMap(MatchWith(n, s, ItemsOf(), wide), g) == MatchWith(n, s, g, wide)
    decreases |s|, 2, 0
  {
    OptionItems(n.asterisk, g);
    if s != "" {
      var a, r := OfItem(n.asterisk, ItemsOf()), RangesWith(n.ranges, s, ItemsOf(), wide);
      var q := if n.question.Some? then StepWith(n.question.value, s[1..], ItemsOf(), wide) else [];
      var c := if s[0] in n.characters then StepWith(n.characters[s[0]], s[Stride(s, wide)..], ItemsOf(), wide) else [];
      if n.question.Some? {
        StepItems(n.question.value, s[1..], g, wide);
      }
      RangesItems(n.ranges, s, g, wide);
      if s[0] in n.characters {
        StepItems(n.characters[s[0]], s[Stride(s, wide)..], g, wide);
      }
      FlatMapAppend(a, q, g);
      FlatMapAppend(a + q, r, g);
      FlatMapAppend(a + q + r, c, g);
    }
  }

  lemma {:induction false} OptionItems<R>(item: Option<Item>, g: Yield<R>)
    ensures FlatMap(OfItem(item, ItemsOf()), g) == OfItem(item, g)
  {
    if item.Some? {
      OneItem(item.value, g);
    }
  }

  lemma {:induction false} OneItem<R>(item: Item, g: Yield<R>)
    ensures FlatMap([item], g) == g(item)
  {
    assert [item][1..] == [];
  }

  lemma {:induction false} StepItems<R>(item: Item, rest: string, g: Yield<R>, wide: bool)
    ensures FlatMap(StepWith(item, rest, ItemsOf(), wide), g) == StepWith(item, rest, g, wide)
    decreases |rest|, 3, 0
  {
    MatchItems(item.child, rest, g, wide);
    OneItem(item, g);
    FlatMapAppend(if rest == "" then [item] else [], MatchWith(item.child, rest, ItemsOf(), wide), g);
  }

  lemma {:induction false} RangesItems<R>(edges: seq<RangeEdge>, s: string, g: Yield<R>, wide: bool)
    requires s != ""
    ensures FlatMap(RangesWith(edges, s, ItemsOf(), wide), g) == RangesWith(edges, s, g, wide)
    decreases |s|, 1, |edges|
  {
    if edges != [] {
      RangesItems(edges[1..], s, g, wide);
      var own := if Accepts(edges[0].key, s[0]) then StepWith(edges[0].item, s[1..], ItemsOf(), wide) else [];
      if Accepts(edges[0].key, s[0]) {
        StepItems(edges[0].item, s[1..], g, wide);
      }
      FlatMapAppend(own, RangesWith(edges[1..], s, ItemsOf(), wide), g);
    }
  }

  /** What the loop still has to append: the item just passed, at the end of the name, and the rest of the match. */
  function Rest(entity: Option<Item>, n: Node, rest: string): seq<Item> {
    (if rest == "" then OfItem(entity, ItemsOf()) else []) + MatchWith(n, rest, ItemsOf(), true)
  }

  /** Everything at one node but the literal character. */
  function Side(n: Node, s: string): seq<Item>
    requires s != ""
  {
    OfItem(n.asterisk, ItemsOf())
    + (if n.question.Some? then StepWith(n.question.value, s[1..], ItemsOf(), true) else [])
    + RangesWith(n.ranges, s, ItemsOf(), true)
  }

  lemma {:induction false} RestOnward(entity: Option<Item>, n: Node, s: string)
    requires s != "" && s[0] in n.characters
    ensures Rest(entity, n, s) == Side(n, s) + Rest(Some(n.characters[s[0]]), n.characters[s[0]].child, s[Stride(s, true)..])
  {
    var rest := s[Stride(s, true)..];
    assert StepWith(n.characters[s[0]], rest, ItemsOf(), true) == Rest(Some(n.characters[s[0]]), n.characters[s[0]].child, rest);
    assert [] + MatchWith(n, s, ItemsOf(), true) == MatchWith(n, s, ItemsOf(), true);
  }

  lemma {:induction false} RestEnds(entity: Option<Item>, n: Node, s: string)
    requires s != "" && s[0] !in n.characters
    ensures Rest(entity, n, s) == Side(n, s)
  {
    assert Side(n, s) + [] == Side(n, s);
    assert [] + Side(n, s) == Side(n, s);
  }

  /** The items that match a name: a loop along the literal characters, with side trips over `?` and ranges. */
  method MatchNode(n: Node, s: string) returns (items: seq<Item>)
    ensures items == MatchWith(n, s, ItemsOf(), true)
    decreases |s|, 1
  {
    items := [];
    var cur, rest := n, s;
    var entity: Option<Item> := None;
    while rest != ""
      invariant |rest| <= |s| && items + Rest(entity, cur, rest) == MatchWith(n, s, ItemsOf(), true)
      decreases |rest|
    {
      ghost var before := items;
      var side := SideTrips(cur, rest);
      items := items + side;
      if rest[0] !in cur.characters {
        RestEnds(entity, cur, rest);
        return;
      }
      var passed := cur.characters[rest[0]];
      ghost var next := Rest(Some(passed), passed.child, rest[Stride(rest, true)..]);
      RestOnward(entity, cur, rest);
      Associate(before, side, next);
      entity, cur, rest := Some(passed), passed.child, rest[Stride(rest, true)..];
    }
    if entity.Some? {
      items := items + [entity.value];
    }
    if cur.asterisk.Some? {
      items := items + [cur.asterisk.value];
    }
  }

  /** What one edge gives: its item at the end of the name, and the match below it. */
  method Below(item: Item, rest: string) returns (items: seq<Item>)
    ensures items == StepWith(item, rest, ItemsOf(), true)
    decreases |rest|, 2
  {
    items := [];
    if rest == "" {
      items := items + [item];
    }
    var below := MatchNode(item.child, rest);
    items := items + below;
  }

  /** The side trips at one node, over its range edges. */
  method SideTrips(n: Node, s: string) returns (items: seq<Item>)
    requires s != ""
    ensures items == Side(n, s)
    decreases |s|, 0
  {
    items := if n.asterisk.Some? then [n.asterisk.value] else [];
    if n.question.Some? {
      var trip := Below(n.question.value, s[1..]);
      items := items + trip;
    } else {
      assert items + [] == items;
    }
    ghost var before := items;
    assert n.ranges[0..] == n.ranges;
    for i := 0 to |n.ranges|
      invariant items + RangesWith(n.ranges[i..], s, ItemsOf(), true) == before + RangesWith(n.ranges, s, ItemsOf(), true)
    {
      var e := n.ranges[i];
      assert n.ranges[i..][1..] == n.ranges[i + 1..];
      ghost var rest := RangesWith(n.ranges[i + 1..], s, ItemsOf(), true);
      if Accepts(e.key, s[0]) {
        var trip := Below(e.item, s[1..]);
        Associate(items, trip, rest);
        items := items + trip;
      } else {
        assert [] + rest == rest;
      }
    }
  }

  class Selector {
    var root: Node
    var cache: Cache

    ghost predicate Valid()
      reads this
    {
      Wf(root, false) && |cache| <= MAX_CACHE_NUM
    }

    constructor ()
      ensures Valid() && root == EMPTY && cache == map[]
    {
      root := EMPTY;
      cache := map[];
    }

    /** Inserts a rule for a schema pattern, or for a pair of patterns; only a rule that gets in clears the cache. */
    method InsertRule(schema: string, table: string, rule: Option<Rule>, insertType: InsertType) returns (ok: bool)
      requires Valid()
      modifies this
      ensures Valid() && cache == if ok then map[] else old(cache)
      ensures schema == "" || rule.None? ==> !ok && root == old(root)
      ensures rule.Some? ==> (ok, root) == TrieStep(old(root), InsertOp(schema, table, rule.value, insertType))
      ensures forall s: string, t: string :: old(Right(root, cache, s, t)) ==> Right(root, cache, s, t)
    {
      if |schema| == 0 || rule.None? {
        return false;
      }
      ghost var before := root;
      var result: (bool, Node);
      if |table| == 0 {
        InsertWf(root, schema, rule, insertType);
        result := InsertAt(root, schema, rule, insertType);
      } else {
        PairWf(root, schema, table, rule.value, insertType);
        result := InsertPair(root, schema, table, rule.value, insertType);
      }
      ok, root := result.0, result.1;
      if ok {
        cache := map[];
      } else {
        forall name: string, other: string
          ensures Lookups(root, name, other, true) == Lookups(before, name, other, true)
        {
          FailedKeeps(before, InsertOp(schema, table, rule.value, insertType), name, other);
        }
      }
    }

    /** Removes the rules of a pattern, or of a pair of patterns. */
    method Remove(schema: string, table: string) returns (ok: bool)
      requires Valid()
      modifies this
      ensures Valid() && cache == if ok then map[] else old(cache)
      ensures (ok, root) == TrieStep(old(root), RemoveOp(schema, table))
      ensures forall s: string, t: string :: old(Right(root, cache, s, t)) ==> Right(root, cache, s, t)
    {
      if |schema| == 0 {
        return false;
      }
      var removed := if |table| == 0 then RemoveAt(root, schema) else RemovePair(root, schema, table);
      if removed.None? {
        return false;
      }
      if |table| == 0 {
        RemoveWf(root, schema);
      } else {
        RemovePairWf(root, schema, table);
      }
      root := removed.value;
      cache := map[];
      return true;
    }

    /** The rules for a name, from the cache or by a walk that is then cached. */
    method Match(schema: string, table: string) returns (rules: seq<Rule>)
      requires Valid()
      modifies `cache
      ensures Valid() && Matched(root, old(cache), schema, table, rules, cache)
      ensures old(Right(root, cache, schema, table)) ==> rules == Lookups(root, schema, table, true)
      ensures forall s: string, t: string :: old(Right(root, cache, s, t)) && !Confused(schema, table, s, t) ==> Right(root, cache, s, t)
    {
      var cacheKey := QuoteSchemaTable(schema, table);
      if cacheKey in cache {
        rules := cache[cacheKey];
      } else {
        rules := Walks(root, schema, table);
        AddToCache(cacheKey, rules);
      }
      forall s: string, t: string | old(Right(root, cache, s, t)) && !Confused(schema, table, s, t)
        ensures Right(root, cache, s, t)
      {
        MatchedRight(root, old(cache), schema, table, rules, cache, s, t);
      }
    }

    /** Adds an entry; when there are too many, any one of them goes. */
    method AddToCache(key: string, rules: seq<Rule>)
      requires |cache| <= MAX_CACHE_NUM
      modifies `cache
      ensures |cache| <= MAX_CACHE_NUM && Trimmed(old(cache)[key := rules], cache)
    {
      cache := cache[key := rules];
      if |cache| > MAX_CACHE_NUM {
        assert cache.Keys != {};
        var literal :| literal in cache;
        cache := cache - {literal};
      }
    }
  }

  lemma {:induction false} FlatMapStep<R, Q>(s: seq<R>, i: nat, f: R -> seq<Q>)
    requires i < |s|
    ensures FlatMap(s[i..], f) == f(s[i]) + FlatMap(s[i + 1..], f)
  {
    assert s[i..][1..] == s[i + 1..];
  }

  /** A walk for the schema, and one for the table in every trie that the schema leads to. */
  method Walks(root: Node, schema: string, table: string) returns (rules: seq<Rule>)
    ensures rules == Lookups(root, schema, table, true)
  {
    var items := MatchNode(root, schema);
    MatchItems(root, schema, RulesOf(), true);
    MatchItems(root, schema, TablesOf(table, true), true);
    var schemaRules := RulesIn(items);
    var tableRules := TableRulesIn(items, table);
    rules := schemaRules + tableRules;
  }

  method RulesIn(items: seq<Item>) returns (rules: seq<Rule>)
    ensures rules == FlatMap(items, RulesOf())
  {
    rules := [];
    assert items[0..] == items;
    for i := 0 to |items|
      invariant rules + FlatMap(items[i..], RulesOf()) == FlatMap(items, RulesOf())
    {
      FlatMapStep(items, i, RulesOf());
      Associate(rules, items[i].rule, FlatMap(items[i + 1..], RulesOf()));
      rules := rules + items[i].rule;
    }
  }

  method TableRulesIn(items: seq<Item>, table: string) returns (rules: seq<Rule>)
    ensures rules == FlatMap(items, TablesOf(table, true))
  {
    rules := [];
    assert items[0..] == items;
    for i := 0 to |items|
      invariant rules + FlatMap(items[i..], TablesOf(table, true)) == FlatMap(items, TablesOf(table, true))
    {
      ghost var onward := FlatMap(items[i + 1..], TablesOf(table, true));
      FlatMapStep(items, i, TablesOf(table, true));
      var here: seq<Rule> := [];
      if items[i].next.Some? {
        var below := MatchNode(items[i].next.value, table);
        MatchItems(items[i].next.value, table, RulesOf(), true);
        here := RulesIn(below);
      }
      Associate(rules, here, onward);
      rules := rules + here;
    }
  }
}
