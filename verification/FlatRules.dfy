/**
 * The selector's meaning: a flat list of rules under patterns.  Every run of insertions and removals on the trie
 * (pkg/table-rule-selector/trie_selector.go) does what it does on the list.
 */
module FlatRules {
  import opened Wrappers
  import opened Patterns
  import opened Runes
  import opened Trie
  import opened MatchDeltas
  import opened Selectors
  import opened Singles

  // ---------- The list ----------

  /** The rules under a schema pattern, when the table has no tokens, or under a pair of patterns. */
  datatype Entry = Entry(schema: Path, table: Path, rules: seq<Rule>)

  predicate SameKey(schema: Path, table: Path, schema': Path, table': Path) {
    SameTokens(schema, schema') && SameTokens(table, table')
  }

  function Has(list: seq<Entry>, schema: Path, table: Path): seq<Rule> {
    if list == [] then []
    else if SameKey(list[0].schema, list[0].table, schema, table) then list[0].rules
    else Has(list[1..], schema, table)
  }

  function PutEntry(list: seq<Entry>, schema: Path, table: Path, rules: seq<Rule>): seq<Entry> {
    if list == [] then [Entry(schema, table, rules)]
    else if SameKey(list[0].schema, list[0].table, schema, table) then [list[0].(rules := rules)] + list[1..]
    else [list[0]] + PutEntry(list[1..], schema, table, rules)
  }

  /** Whether an entry is for two names: as the walk steps, or byte by byte. */
  predicate Applies(schema: Path, table: Path, s: string, t: string, wide: bool) {
    Hits(schema, s, wide) && (table == [] || Hits(table, t, wide))
  }

  /** All rules whose patterns match the names, each as often as it was inserted. */
  function FlatMatch(list: seq<Entry>, s: string, t: string, wide: bool): multiset<Rule> {
    if list == [] then multiset{}
    else Bag(Applies(list[0].schema, list[0].table, s, t, wide), list[0].rules) + FlatMatch(list[1..], s, t, wide)
  }

  /** A schema pattern, and a table pattern or none. */
  predicate Readable(op: Op) {
    op.schema != "" && Parse(op.schema).Good? && Parse(op.table).Good?
  }

  function FlatStep(list: seq<Entry>, op: Op): (bool, seq<Entry>) {
    if !Readable(op) then (false, list)
    else
      var schema, table := Parse(op.schema).tokens, Parse(op.table).tokens;
      var had := Has(list, schema, table);
      match op
      case InsertOp(_, _, rule, Insert) => if had != [] then (false, list) else (true, PutEntry(list, schema, table, [rule]))
      case InsertOp(_, _, rule, Replace) => (true, PutEntry(list, schema, table, [rule]))
      case InsertOp(_, _, rule, Append) => (true, PutEntry(list, schema, table, had + [rule]))
      case RemoveOp(_, _) => if had == [] then (false, list) else (true, PutEntry(list, schema, table, []))
  }

  // ---------- The trie ----------

  function TrieRules(root: Node, schema: Path, table: Path): seq<Rule>
    requires schema != []
  {
    if table == [] then RuleAt(root, schema) else RuleAt(NextOrEmpty(root, schema), table)
  }

  function SetAt(root: Node, schema: Path, table: Path, rules: seq<Rule>): Node
    requires schema != []
  {
    if table == [] then Update(root, schema, SetRules(rules))
    else Update(root, schema, SetNext(Update(NextOrEmpty(root, schema), table, SetRules(rules))))
  }

  // ---------- Same patterns ----------

  lemma {:induction false} SameTokensSymmetric(a: Path, b: Path)
    ensures SameTokens(a, b) <==> SameTokens(b, a)
  {
    if |a| == |b| {
      forall i | 0 <= i < |a|
        ensures SameToken(a[i], b[i]) <==> SameToken(b[i], a[i])
      {
        SameTokenEquivalence(a[i], b[i], a[i]);
        SameTokenEquivalence(b[i], a[i], b[i]);
      }
    }
  }

  lemma {:induction false} SameTokensTransitive(a: Path, b: Path, c: Path)
    requires SameTokens(a, b) && SameTokens(b, c)
    ensures SameTokens(a, c)
  {
    forall i | 0 <= i < |a|
      ensures SameToken(a[i], c[i])
    {
      SameTokenEquivalence(a[i], b[i], c[i]);
    }
  }

  /** Two keys that are the same are the same as the same others. */
  lemma {:induction false} SameKeys(a: Path, b: Path, a': Path, b': Path, q: Path, u: Path)
    requires SameKey(a, b, a', b')
    ensures SameKey(a, b, q, u) <==> SameKey(a', b', q, u)
  {
    SameTokensSymmetric(a, a');
    SameTokensSymmetric(b, b');
    if SameKey(a, b, q, u) {
      SameTokensTransitive(a', a, q);
      SameTokensTransitive(b', b, u);
    }
    if SameKey(a', b', q, u) {
      SameTokensTransitive(a, a', q);
      SameTokensTransitive(b, b', u);
    }
  }

  lemma {:induction false} SameApplies(a: Path, b: Path, a': Path, b': Path, s: string, t: string)
    requires SameKey(a, b, a', b')
    ensures Applies(a, b, s, t, true) <==> Applies(a', b', s, t, true)
  {
    SameHits(a, a', s, true);
    SameHits(b, b', t, true);
  }

  lemma {:induction false} HasPut(list: seq<Entry>, schema: Path, table: Path, rules: seq<Rule>, q: Path, u: Path)
    ensures Has(PutEntry(list, schema, table, rules), q, u) == if SameKey(schema, table, q, u) then rules else Has(list, q, u)
  {
    if list != [] {
      var e, list' := list[0], PutEntry(list, schema, table, rules);
      if SameKey(e.schema, e.table, schema, table) {
        assert list'[1..] == list[1..];
        SameKeys(e.schema, e.table, schema, table, q, u);
      } else {
        assert list'[1..] == PutEntry(list[1..], schema, table, rules);
        HasPut(list[1..], schema, table, rules, q, u);
        if SameKey(e.schema, e.table, q, u) && SameKey(schema, table, q, u) {
          SameTokensSymmetric(schema, q);
          SameTokensSymmetric(table, u);
          SameTokensTransitive(e.schema, q, schema);
          SameTokensTransitive(e.table, u, table);
        }
      }
    }
  }

  lemma {:induction false} BagsBehind<R>(own: multiset<R>, m: multiset<R>, m': multiset<R>, x: multiset<R>, y: multiset<R>)
    requires m' + x == m + y
    ensures own + m' + x == own + m + y
  {
    assert own + m' + x == own + (m' + x);
    assert own + m + y == own + (m + y);
  }

  /** A new rule in the list shows in the matches of its patterns, in exchange for the rules they had. */
  lemma {:induction false} FlatDelta(list: seq<Entry>, schema: Path, table: Path, rules: seq<Rule>, s: string, t: string)
    ensures FlatMatch(PutEntry(list, schema, table, rules), s, t, true) + Bag(Applies(schema, table, s, t, true), Has(list, schema, table))
            == FlatMatch(list, s, t, true) + Bag(Applies(schema, table, s, t, true), rules)
  {
    var list' := PutEntry(list, schema, table, rules);
    if list == [] {
      assert list'[1..] == [];
    } else if SameKey(list[0].schema, list[0].table, schema, table) {
      assert list'[1..] == list[1..];
      SameApplies(list[0].schema, list[0].table, schema, table, s, t);
    } else {
      assert list'[1..] == PutEntry(list[1..], schema, table, rules);
      FlatDelta(list[1..], schema, table, rules, s, t);
      BagsBehind(Bag(Applies(list[0].schema, list[0].table, s, t, true), list[0].rules), FlatMatch(list[1..], s, t, true), FlatMatch(list'[1..], s, t, true),
                 Bag(Applies(schema, table, s, t, true), Has(list[1..], schema, table)), Bag(Applies(schema, table, s, t, true), rules));
    }
  }

  // ---------- Rules of the trie ----------

  lemma {:induction false} SameLookup(n: Node, path: Path, q: Path)
    requires path != [] && SameTokens(path, q)
    ensures Lookup(n, path) == Lookup(n, q)
    decreases |path|
  {
    SameTokensTail(path, q);
    SameEdge(n, path[0], q[0]);
    if |path| > 1 && Edge(n, path[0]).Some? {
      SameLookup(Edge(n, path[0]).value.child, path[1..], q[1..]);
    }
  }

  /** A path that is made has what it had, and nothing where it had nothing. */
  lemma {:induction false} KeepsAt(n: Node, path: Path, q: Path)
    requires path != [] && q != []
    ensures RuleAt(Update(n, path, Keep()), q) == RuleAt(n, q) && NextAt(Update(n, path, Keep()), q) == NextAt(n, q)
  {
    LookupUpdate(n, path, Keep(), q);
    if SameTokens(path, q) {
      SameLookup(n, path, q);
    }
  }

  lemma {:induction false} SetsRules(n: Node, path: Path, rules: seq<Rule>, q: Path)
    requires path != [] && q != []
    ensures RuleAt(Update(n, path, SetRules(rules)), q) == if SameTokens(path, q) then rules else RuleAt(n, q)
    ensures NextAt(Update(n, path, SetRules(rules)), q) == NextAt(n, q)
  {
    LookupUpdate(n, path, SetRules(rules), q);
    if SameTokens(path, q) {
      SameLookup(n, path, q);
    }
  }

  lemma {:induction false} SetsNext(n: Node, path: Path, next: Node, q: Path)
    requires path != [] && q != []
    ensures RuleAt(Update(n, path, SetNext(next)), q) == RuleAt(n, q)
    ensures NextOrEmpty(Update(n, path, SetNext(next)), q) == if SameTokens(path, q) then next else NextOrEmpty(n, q)
    ensures SameTokens(path, q) ==> NextOrEmpty(n, q) == NextOrEmpty(n, path)
  {
    LookupUpdate(n, path, SetNext(next), q);
    if SameTokens(path, q) {
      SameLookup(n, path, q);
    }
  }

  lemma {:induction false} SetsAt(root: Node, schema: Path, table: Path, rules: seq<Rule>, q: Path, u: Path)
    requires schema != [] && q != []
    ensures TrieRules(SetAt(root, schema, table, rules), q, u) == if SameKey(schema, table, q, u) then rules else TrieRules(root, q, u)
  {
    if table == [] {
      SetsRules(root, schema, rules, q);
    } else {
      var below := NextOrEmpty(root, schema);
      SetsNext(root, schema, Update(below, table, SetRules(rules)), q);
      if u != [] {
        SetsRules(below, table, rules, u);
      }
    }
  }

  /** Making the path of a pair of patterns. */
  function MakePair(root: Node, schema: Path, table: Path): Node
    requires schema != [] && table != []
  {
    Update(root, schema, SetNext(Update(NextOrEmpty(root, schema), table, Keep())))
  }

  lemma {:induction false} MakesPair(root: Node, schema: Path, table: Path, q: Path, u: Path)
    requires schema != [] && table != [] && q != []
    ensures TrieRules(MakePair(root, schema, table), q, u) == TrieRules(root, q, u)
  {
    var below := NextOrEmpty(root, schema);
    SetsNext(root, schema, Update(below, table, Keep()), q);
    if u != [] {
      KeepsAt(below, table, u);
    }
  }

  // ---------- Matches of the trie ----------

  lemma {:induction false} TablesOfItem(item: Item, table: string)
    ensures TablesOf(table, true)(item) == MatchWith(if item.next.Some? then item.next.value else EMPTY, table, RulesOf(), true)
  {
  }

  lemma {:induction false} Beside<R>(a: seq<R>, a': seq<R>, b: seq<R>, b': seq<R>, x: multiset<R>, y: multiset<R>)
    requires (multiset(a') + x == multiset(a) + y && b' == b) || (a' == a && multiset(b') + x == multiset(b) + y)
    ensures multiset(a' + b') + x == multiset(a + b) + y
  {
    assert multiset(a' + b') + x == multiset(a') + x + multiset(b') == multiset(a') + (multiset(b') + x);
    assert multiset(a + b) + y == multiset(a) + y + multiset(b) == multiset(a) + (multiset(b) + y);
  }

  /** A second trie under a schema pattern is exchanged for another. */
  lemma {:induction false} NextDelta(root: Node, schema: Path, next: Node, s: string, t: string)
    requires schema != []
    ensures multiset(Lookups(Update(root, schema, SetNext(next)), s, t, true))
            + Bag(Hits(schema, s, true), MatchWith(NextOrEmpty(root, schema), t, RulesOf(), true))
            == multiset(Lookups(root, s, t, true)) + Bag(Hits(schema, s, true), MatchWith(next, t, RulesOf(), true))
  {
    var root', item := Update(root, schema, SetNext(next)), LookupOrFresh(root, schema);
    ShallowYields(t, true);
    UpdateKeeps(root, schema, SetNext(next), s, RulesOf(), true);
    UpdateDelta(root, schema, SetNext(next), s, TablesOf(t, true), true);
    TablesOfItem(item, t);
    TablesOfItem(SetNext(next)(item), t);
    Beside(MatchWith(root, s, RulesOf(), true), MatchWith(root', s, RulesOf(), true),
           MatchWith(root, s, TablesOf(t, true), true), MatchWith(root', s, TablesOf(t, true), true),
           Bag(Hits(schema, s, true), MatchWith(NextOrEmpty(root, schema), t, RulesOf(), true)),
           Bag(Hits(schema, s, true), MatchWith(next, t, RulesOf(), true)));
  }

  lemma {:induction false} SchemaDelta(root: Node, schema: Path, rules: seq<Rule>, s: string, t: string)
    requires schema != []
    ensures multiset(Lookups(Update(root, schema, SetRules(rules)), s, t, true)) + Bag(Hits(schema, s, true), RuleAt(root, schema))
            == multiset(Lookups(root, s, t, true)) + Bag(Hits(schema, s, true), rules)
  {
    var root' := Update(root, schema, SetRules(rules));
    ShallowYields(t, true);
    UpdateKeeps(root, schema, SetRules(rules), s, TablesOf(t, true), true);
    UpdateDelta(root, schema, SetRules(rules), s, RulesOf(), true);
    Beside(MatchWith(root, s, RulesOf(), true), MatchWith(root', s, RulesOf(), true),
           MatchWith(root, s, TablesOf(t, true), true), MatchWith(root', s, TablesOf(t, true), true),
           Bag(Hits(schema, s, true), RuleAt(root, schema)), Bag(Hits(schema, s, true), rules));
  }

  /** An insertion of rules exchanges them for the ones their patterns had, in the matches of these patterns. */
  lemma {:induction false} LookupsDelta(root: Node, schema: Path, table: Path, rules: seq<Rule>, s: string, t: string)
    requires schema != []
    ensures multiset(Lookups(SetAt(root, schema, table, rules), s, t, true)) + Bag(Applies(schema, table, s, t, true), TrieRules(root, schema, table))
            == multiset(Lookups(root, s, t, true)) + Bag(Applies(schema, table, s, t, true), rules)
  {
    if table == [] {
      SchemaDelta(root, schema, rules, s, t);
    } else {
      var below := NextOrEmpty(root, schema);
      var next := Update(below, table, SetRules(rules));
      ShallowYields(t, true);
      NextDelta(root, schema, next, s, t);
      UpdateDelta(below, table, SetRules(rules), t, RulesOf(), true);
      if Hits(schema, s, true) {
        Chain4(multiset(Lookups(SetAt(root, schema, table, rules), s, t, true)), multiset(Lookups(root, s, t, true)),
               multiset(MatchWith(below, t, RulesOf(), true)), multiset(MatchWith(next, t, RulesOf(), true)),
               Bag(Hits(table, t, true), RuleAt(below, table)), Bag(Hits(table, t, true), rules));
      }
    }
  }

  // ---------- The refinement ----------

  ghost predicate SameRules(root: Node, list: seq<Entry>) {
    forall schema: Path, table: Path :: schema != [] ==> TrieRules(root, schema, table) == Has(list, schema, table)
  }

  /** For all names the trie finds what the list has for them. */
  ghost predicate SameMatches(root: Node, list: seq<Entry>) {
    forall s: string, t: string :: multiset(Lookups(root, s, t, true)) == FlatMatch(list, s, t, true)
  }

  ghost predicate Refines(root: Node, list: seq<Entry>) {
    SameRules(root, list) && SameMatches(root, list)
  }

  lemma {:induction false} CancelBag<R>(m: multiset<R>, n: multiset<R>, m': multiset<R>, n': multiset<R>, x: multiset<R>, y: multiset<R>)
    requires m == n && m' + x == m + y && n' + x == n + y
    ensures m' == n'
  {
    assert m' == m' + x - x;
    assert n' == n' + x - x;
  }

  lemma {:induction false} SameBeside<R>(m: multiset<R>, n: multiset<R>, x: multiset<R>)
    requires m + x == n + x
    ensures m == n
  {
    assert m == m + x - x && n == n + x - x;
  }

  lemma {:induction false} SetRefines(root: Node, list: seq<Entry>, schema: Path, table: Path, rules: seq<Rule>)
    requires Refines(root, list) && schema != []
    ensures Refines(SetAt(root, schema, table, rules), PutEntry(list, schema, table, rules))
  {
    var root', list' := SetAt(root, schema, table, rules), PutEntry(list, schema, table, rules);
    forall q: Path, u: Path | q != []
      ensures TrieRules(root', q, u) == Has(list', q, u)
    {
      SetsAt(root, schema, table, rules, q, u);
      HasPut(list, schema, table, rules, q, u);
    }
    forall s: string, t: string
      ensures multiset(Lookups(root', s, t, true)) == FlatMatch(list', s, t, true)
    {
      LookupsDelta(root, schema, table, rules, s, t);
      FlatDelta(list, schema, table, rules, s, t);
      CancelBag(multiset(Lookups(root, s, t, true)), FlatMatch(list, s, t, true), multiset(Lookups(root', s, t, true)), FlatMatch(list', s, t, true),
                Bag(Applies(schema, table, s, t, true), Has(list, schema, table)), Bag(Applies(schema, table, s, t, true), rules));
    }
  }

  lemma {:induction false} KeepRefines(root: Node, list: seq<Entry>, schema: Path)
    requires Refines(root, list) && schema != []
    ensures Refines(Update(root, schema, Keep()), list)
  {
    var root' := Update(root, schema, Keep());
    forall q: Path, u: Path | q != []
      ensures TrieRules(root', q, u) == Has(list, q, u)
    {
      KeepsAt(root, schema, q);
      assert TrieRules(root, q, u) == Has(list, q, u);
    }
    forall s: string, t: string
      ensures multiset(Lookups(root', s, t, true)) == FlatMatch(list, s, t, true)
    {
      KeepsLookups(root, schema, s, t, true);
    }
  }

  lemma {:induction false} PairKeepsLookups(root: Node, schema: Path, table: Path, s: string, t: string)
    requires schema != [] && table != []
    ensures multiset(Lookups(MakePair(root, schema, table), s, t, true)) == multiset(Lookups(root, s, t, true))
  {
    var below := NextOrEmpty(root, schema);
    var next := Update(below, table, Keep());
    ShallowYields(t, true);
    UpdateKeeps(below, table, Keep(), t, RulesOf(), true);
    NextDelta(root, schema, next, s, t);
    var x := Bag(Hits(schema, s, true), MatchWith(below, t, RulesOf(), true));
    SameBeside(multiset(Lookups(MakePair(root, schema, table), s, t, true)), multiset(Lookups(root, s, t, true)), x);
  }

  lemma {:induction false} MakeRefines(root: Node, list: seq<Entry>, schema: Path, table: Path)
    requires Refines(root, list) && schema != [] && table != []
    ensures Refines(MakePair(root, schema, table), list)
  {
    var root', below := MakePair(root, schema, table), NextOrEmpty(root, schema);
    forall q: Path, u: Path | q != []
      ensures TrieRules(root', q, u) == Has(list, q, u)
    {
      MakesPair(root, schema, table, q, u);
    }
    forall s: string, t: string
      ensures multiset(Lookups(root', s, t, true)) == FlatMatch(list, s, t, true)
    {
      PairKeepsLookups(root, schema, table, s, t);
    }
  }

  /** One operation: it succeeds on the trie exactly when it does on the list, and does the same. */
  lemma {:induction false} StepRefines(root: Node, list: seq<Entry>, op: Op)
    requires Refines(root, list)
    ensures TrieStep(root, op).0 == FlatStep(list, op).0 && Refines(TrieStep(root, op).1, FlatStep(list, op).1)
  {
    if op.schema != "" {
      ParseShape(op.schema);
      ParseShape(op.table);
      if op.table == "" {
        SchemaStepRefines(root, list, op);
      } else {
        PairStepRefines(root, list, op);
      }
    }
  }

  /** What an operation answers when its patterns have these rules, and the rules they get, if they change. */
  function Outcome(op: Op, had: seq<Rule>): (bool, Option<seq<Rule>>) {
    match op
    case InsertOp(_, _, rule, Insert) => if had != [] then (false, None) else (true, Some([rule]))
    case InsertOp(_, _, rule, Replace) => (true, Some([rule]))
    case InsertOp(_, _, rule, Append) => (true, Some(had + [rule]))
    case RemoveOp(_, _) => if had == [] then (false, None) else (true, Some([]))
  }

  lemma {:induction false} FlatOutcome(list: seq<Entry>, op: Op, schema: Path, table: Path)
    requires op.schema != "" && Parse(op.schema) == Good(schema) && Parse(op.table) == Good(table)
    ensures var (ok, rules) := Outcome(op, Has(list, schema, table));
            FlatStep(list, op) == (ok, if rules.Some? then PutEntry(list, schema, table, rules.value) else list)
  {
  }

  lemma {:induction false} SchemaOutcome(root: Node, op: Op, path: Path)
    requires op.schema != "" && op.table == "" && Parse(op.schema) == Good(path) && path != []
    ensures var (ok, rules) := Outcome(op, RuleAt(root, path));
            TrieStep(root, op) ==
            (ok, if rules.Some? then Update(root, path, SetRules(rules.value)) else if op.InsertOp? then Update(root, path, Keep()) else root)
  {
    if op.InsertOp? {
      assert [] + [op.rule] == [op.rule];
    }
  }

  lemma {:induction false} SchemaStepRefines(root: Node, list: seq<Entry>, op: Op)
    requires Refines(root, list) && op.schema != "" && op.table == "" && Parse(op.schema).tokens != []
    ensures TrieStep(root, op).0 == FlatStep(list, op).0 && Refines(TrieStep(root, op).1, FlatStep(list, op).1)
  {
    var path := Parse(op.schema).tokens;
    KeepRefines(root, list, path);
    if Parse(op.schema).Good? {
      assert TrieRules(root, path, []) == Has(list, path, []);
      SchemaOutcome(root, op, path);
      FlatOutcome(list, op, path, []);
      var rules := Outcome(op, RuleAt(root, path)).1;
      if rules.Some? {
        SetRefines(root, list, path, [], rules.value);
      }
    }
  }

  lemma {:induction false} PairOutcome(root: Node, op: Op, path: Path, below: Path)
    requires op.schema != "" && op.table != "" && Parse(op.schema) == Good(path) && Parse(op.table) == Good(below) && path != [] && below != []
    ensures var (ok, rules) := Outcome(op, TrieRules(root, path, below));
            TrieStep(root, op) ==
            (ok, if rules.Some? then SetAt(root, path, below, rules.value) else if op.InsertOp? then MakePair(root, path, below) else root)
  {
    if op.InsertOp? {
      assert [] + [op.rule] == [op.rule];
    } else {
      NothingInEmpty(below);
    }
  }

  lemma {:induction false} PairStepRefines(root: Node, list: seq<Entry>, op: Op)
    requires Refines(root, list) && op.schema != "" && op.table != "" && Parse(op.schema).tokens != [] && Parse(op.table).tokens != []
    ensures TrieStep(root, op).0 == FlatStep(list, op).0 && Refines(TrieStep(root, op).1, FlatStep(list, op).1)
  {
    var path, below := Parse(op.schema).tokens, Parse(op.table).tokens;
    KeepRefines(root, list, path);
    MakeRefines(root, list, path, below);
    if Parse(op.schema).Good? && Parse(op.table).Good? {
      assert TrieRules(root, path, below) == Has(list, path, below);
      PairOutcome(root, op, path, below);
      FlatOutcome(list, op, path, below);
      var rules := Outcome(op, TrieRules(root, path, below)).1;
      if rules.Some? {
        SetRefines(root, list, path, below, rules.value);
      }
    } else {
      BadPair(root, op);
    }
  }

  /** An operation with a pattern that cannot be read makes a path at most. */
  lemma {:induction false} BadPair(root: Node, op: Op)
    requires op.schema != "" && op.table != "" && (Parse(op.schema).Bad? || Parse(op.table).Bad?)
    requires Parse(op.schema).tokens != [] && Parse(op.table).tokens != []
    ensures var path, below := Parse(op.schema).tokens, Parse(op.table).tokens;
            TrieStep(root, op) == (false, if op.RemoveOp? then root
                                          else if Parse(op.schema).Bad? then Update(root, path, Keep())
                                          else MakePair(root, path, below))
  {
  }

  // ---------- Runs ----------

  function TrieRun(root: Node, ops: seq<Op>): (seq<bool>, Node)
    decreases |ops|
  {
    if ops == [] then ([], root)
    else
      var (ok, root') := TrieStep(root, ops[0]);
      var (oks, end) := TrieRun(root', ops[1..]);
      ([ok] + oks, end)
  }

  function FlatRun(list: seq<Entry>, ops: seq<Op>): (seq<bool>, seq<Entry>)
    decreases |ops|
  {
    if ops == [] then ([], list)
    else
      var (ok, list') := FlatStep(list, ops[0]);
      var (oks, end) := FlatRun(list', ops[1..]);
      ([ok] + oks, end)
  }

  lemma {:induction false} RunRefines(root: Node, list: seq<Entry>, ops: seq<Op>)
    requires Refines(root, list)
    ensures TrieRun(root, ops).0 == FlatRun(list, ops).0 && Refines(TrieRun(root, ops).1, FlatRun(list, ops).1)
    decreases |ops|
  {
    if ops != [] {
      StepRefines(root, list, ops[0]);
      RunRefines(TrieStep(root, ops[0]).1, FlatStep(list, ops[0]).1, ops[1..]);
    }
  }

  lemma {:induction false} EmptyRefines()
    ensures Refines(EMPTY, [])
  {
    forall q: Path, u: Path | q != []
      ensures TrieRules(EMPTY, q, u) == []
    {
      NothingInEmpty(q);
      if u != [] {
        NothingInEmpty(u);
      }
    }
    forall s: string, t: string
      ensures Lookups(EMPTY, s, t, true) == []
    {
      FreshYields(s, RulesOf(), true);
      FreshYields(s, TablesOf(t, true), true);
    }
  }

  /** The trie refines the list: after any operations, both have answered the same and match the same. */
  lemma {:induction false} TrieRefinesList(ops: seq<Op>, s: string, t: string)
    ensures TrieRun(EMPTY, ops).0 == FlatRun([], ops).0
    ensures multiset(Lookups(TrieRun(EMPTY, ops).1, s, t, true)) == FlatMatch(FlatRun([], ops).1, s, t, true)
  {
    EmptyRefines();
    RunRefines(EMPTY, [], ops);
  }

  // ---------- Names with runes of several bytes ----------

  lemma {:induction false} RunOfOne(op: Op)
    ensures TrieRun(EMPTY, [op]).1 == TrieStep(EMPTY, op).1 && FlatRun([], [op]).1 == FlatStep([], op).1
  {
    assert [op][1..] == [];
  }

  /** On names of narrow runes both meanings of the list agree. */
  lemma {:induction false} NarrowFlat(list: seq<Entry>, s: string, t: string)
    requires Narrow(s) && Narrow(t)
    ensures FlatMatch(list, s, t, true) == FlatMatch(list, s, t, false)
  {
    if list != [] {
      var e := list[0];
      HitsIsMatches(e.schema, s, true);
      HitsIsMatches(e.schema, s, false);
      HitsIsMatches(e.table, t, true);
      HitsIsMatches(e.table, t, false);
      NarrowFlat(list[1..], s, t);
    }
  }

  lemma {:induction false} FlatOne(schema: Path, table: Path, rule: Rule, s: string, t: string)
    requires Applies(schema, table, s, t, false)
    ensures FlatMatch([Entry(schema, table, [rule])], s, t, false) == multiset{rule}
  {
    assert [Entry(schema, table, [rule])][1..] == [];
  }

  /** A rule that the list finds for a schema and the trie does not. */
  lemma {:induction false} SchemaMissed(s: string, t: string) returns (op: Op)
    requires !Narrow(s)
    ensures Lookups(TrieRun(EMPTY, [op]).1, s, t, true) == [] && FlatMatch(FlatRun([], [op]).1, s, t, false) == multiset{"r"}
  {
    var p, path := WidePattern(s);
    op := InsertOp(p, "", "r", Insert);
    RunOfOne(op);
    SchemaStep(p, "r", path);
    ShallowYields(t, true);
    UpdateKeeps(EMPTY, path, SetRules(["r"]), s, TablesOf(t, true), true);
    FreshYields(s, TablesOf(t, true), true);
    assert FlatStep([], op).1 == [Entry(path, [], ["r"])];
    HitsIsMatches(path, s, false);
    FlatOne(path, [], "r", s, t);
  }

  /** And one for a table, whatever its schema. */
  lemma {:induction false} TableMissed(s: string, t: string) returns (op: Op)
    requires !Narrow(t)
    ensures Lookups(TrieRun(EMPTY, [op]).1, s, t, true) == [] && FlatMatch(FlatRun([], [op]).1, s, t, false) == multiset{"r"}
  {
    var p, path := WidePattern(t);
    op := InsertOp("*", p, "r", Insert);
    RunOfOne(op);
    TableStep(p, "r", path);
    StarFinds(Update(EMPTY, path, SetRules(["r"])), s, t);
    assert Parse("*") == Good([Star]);
    assert FlatStep([], op).1 == [Entry([Star], path, ["r"])];
    HitsIsMatches(path, t, false);
    FlatOne([Star], path, "r", s, t);
  }

  /** Under the schema pattern `*`, what the trie below it gives. */
  lemma {:induction false} StarFinds(next: Node, s: string, t: string)
    ensures Lookups(Update(EMPTY, [Star], SetNext(next)), s, t, true) == MatchWith(next, t, RulesOf(), true)
  {
    ShallowYields(t, true);
    SingleFinds([Star], SetNext(next), s, RulesOf());
    SingleFinds([Star], SetNext(next), s, TablesOf(t, true));
    assert [] + MatchWith(next, t, RulesOf(), true) == MatchWith(next, t, RulesOf(), true);
  }

  /**
   * For any two names: after all runs of operations the trie finds the rules whose patterns match them byte by byte, if
   * and only if every rune of the names is one byte wide.
   */
  lemma {:induction false} RunesIff(s: string, t: string)
    ensures (forall ops: seq<Op> :: multiset(Lookups(TrieRun(EMPTY, ops).1, s, t, true)) == FlatMatch(FlatRun([], ops).1, s, t, false))
            <==> Narrow(s) && Narrow(t)
  {
    if Narrow(s) && Narrow(t) {
      forall ops: seq<Op>
        ensures multiset(Lookups(TrieRun(EMPTY, ops).1, s, t, true)) == FlatMatch(FlatRun([], ops).1, s, t, false)
      {
        TrieRefinesList(ops, s, t);
        NarrowFlat(FlatRun([], ops).1, s, t);
      }
    } else {
      var op := OneMissed(s, t);
    }
  }

  lemma {:induction false} OneMissed(s: string, t: string) returns (op: Op)
    requires !Narrow(s) || !Narrow(t)
    ensures multiset(Lookups(TrieRun(EMPTY, [op]).1, s, t, true)) != FlatMatch(FlatRun([], [op]).1, s, t, false)
  {
    if !Narrow(s) {
      op := SchemaMissed(s, t);
    } else {
      op := TableMissed(s, t);
    }
    assert "r" in multiset{"r"};
  }
}
