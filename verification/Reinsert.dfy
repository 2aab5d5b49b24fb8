/** Inserting everything that a selector lists into an empty one (pkg/table-rule-selector/trie_selector.go:525-580). */
module Reinsertions {
  import opened Sequences
  import opened Wrappers
  import opened Patterns
  import opened Trie
  import opened MatchDeltas
  import opened Selectors
  import opened FlatRules
  import opened Listings

  // ---------- Lists with the same rules match the same ----------

  /** No two entries have the same patterns. */
  predicate Distinct(list: seq<Entry>) {
    list == [] || (list[0].schema != [] && Fresh(list[1..], list[0].schema, list[0].table) && Distinct(list[1..]))
  }

  predicate Fresh(list: seq<Entry>, schema: Path, table: Path) {
    list == [] || (!SameKey(list[0].schema, list[0].table, schema, table) && Fresh(list[1..], schema, table))
  }

  lemma {:induction false} FreshHas(list: seq<Entry>, schema: Path, table: Path, q: Path, u: Path)
    requires Fresh(list, schema, table) && SameKey(schema, table, q, u)
    ensures Has(list, q, u) == []
  {
    if list != [] {
      SameTokensSymmetric(schema, q);
      SameTokensSymmetric(table, u);
      if SameKey(list[0].schema, list[0].table, q, u) {
        SameTokensTransitive(list[0].schema, q, schema);
        SameTokensTransitive(list[0].table, u, table);
      }
      FreshHas(list[1..], schema, table, q, u);
    }
  }

  lemma {:induction false} PutFresh(list: seq<Entry>, schema: Path, table: Path, rules: seq<Rule>, q: Path, u: Path)
    requires Fresh(list, q, u) && !SameKey(schema, table, q, u)
    ensures Fresh(PutEntry(list, schema, table, rules), q, u)
  {
    var list' := PutEntry(list, schema, table, rules);
    if list == [] {
      assert list'[1..] == [];
    } else if SameKey(list[0].schema, list[0].table, schema, table) {
      assert list'[1..] == list[1..];
    } else {
      assert list'[1..] == PutEntry(list[1..], schema, table, rules);
      PutFresh(list[1..], schema, table, rules, q, u);
    }
  }

  lemma {:induction false} PutDistinct(list: seq<Entry>, schema: Path, table: Path, rules: seq<Rule>)
    requires Distinct(list) && schema != []
    ensures Distinct(PutEntry(list, schema, table, rules))
  {
    var list' := PutEntry(list, schema, table, rules);
    if list == [] {
      assert list'[1..] == [];
    } else if SameKey(list[0].schema, list[0].table, schema, table) {
      assert list'[1..] == list[1..];
    } else {
      assert list'[1..] == PutEntry(list[1..], schema, table, rules);
      PutDistinct(list[1..], schema, table, rules);
      SameTokensSymmetric(list[0].schema, schema);
      SameTokensSymmetric(list[0].table, table);
      PutFresh(list[1..], schema, table, rules, list[0].schema, list[0].table);
    }
  }

  lemma {:induction false} RunDistinct(list: seq<Entry>, ops: seq<Op>)
    requires Distinct(list)
    ensures Distinct(FlatRun(list, ops).1)
    decreases |ops|
  {
    if ops != [] {
      StepDistinct(list, ops[0]);
      RunDistinct(FlatStep(list, ops[0]).1, ops[1..]);
    }
  }

  lemma {:induction false} StepDistinct(list: seq<Entry>, op: Op)
    requires Distinct(list)
    ensures Distinct(FlatStep(list, op).1)
  {
    if Readable(op) {
      var schema, table := Parse(op.schema).tokens, Parse(op.table).tokens;
      ParseShape(op.schema);
      PutDistinct(list, schema, table, []);
      if op.InsertOp? {
        PutDistinct(list, schema, table, [op.rule]);
        PutDistinct(list, schema, table, Has(list, schema, table) + [op.rule]);
      }
    }
  }

  ghost predicate SameHas(a: seq<Entry>, b: seq<Entry>) {
    forall q: Path, u: Path :: Has(a, q, u) == Has(b, q, u)
  }

  lemma {:induction false} SelfKey(schema: Path, table: Path)
    ensures SameKey(schema, table, schema, table)
  {
    SameSelf(schema);
    SameSelf(table);
  }

  lemma {:induction false} SameSelf(p: Path)
    ensures SameTokens(p, p)
  {
    forall i | 0 <= i < |p|
      ensures SameToken(p[i], p[i])
    {
      SameTokenEquivalence(p[i], p[i], p[i]);
    }
  }

  lemma {:induction false} TailHas(list: seq<Entry>, q: Path, u: Path)
    requires list != [] && Distinct(list)
    ensures Has(list[1..], q, u) == if SameKey(list[0].schema, list[0].table, q, u) then [] else Has(list, q, u)
  {
    if SameKey(list[0].schema, list[0].table, q, u) {
      FreshHas(list[1..], list[0].schema, list[0].table, q, u);
    }
  }

  lemma {:induction false} EmptyMatch(list: seq<Entry>, s: string, t: string)
    requires Distinct(list) && SameHas([], list)
    ensures FlatMatch(list, s, t, true) == multiset{}
  {
    if list != [] {
      SelfKey(list[0].schema, list[0].table);
      assert Has(list, list[0].schema, list[0].table) == Has([], list[0].schema, list[0].table);
      forall q: Path, u: Path
        ensures Has([], q, u) == Has(list[1..], q, u)
      {
        TailHas(list, q, u);
        assert Has([], q, u) == Has(list, q, u);
      }
      EmptyMatch(list[1..], s, t);
    }
  }

  lemma {:induction false} PeelHas(a: seq<Entry>, b: seq<Entry>, q: Path, u: Path)
    requires a != [] && Distinct(a) && Has(a, q, u) == Has(b, q, u)
    ensures Has(a[1..], q, u) == Has(PutEntry(b, a[0].schema, a[0].table, []), q, u)
  {
    TailHas(a, q, u);
    HasPut(b, a[0].schema, a[0].table, [], q, u);
  }

  lemma {:induction false} PeelMatch(a: seq<Entry>, b: seq<Entry>, s: string, t: string)
    requires a != [] && Has(b, a[0].schema, a[0].table) == a[0].rules
    requires FlatMatch(a[1..], s, t, true) == FlatMatch(PutEntry(b, a[0].schema, a[0].table, []), s, t, true)
    ensures FlatMatch(a, s, t, true) == FlatMatch(b, s, t, true)
  {
    var e := a[0];
    var none: seq<Rule> := [];
    assert Bag(Applies(e.schema, e.table, s, t, true), none) == multiset{};
    FlatDelta(b, e.schema, e.table, [], s, t);
    Settle(FlatMatch(a[1..], s, t, true), Bag(Applies(e.schema, e.table, s, t, true), e.rules), FlatMatch(b, s, t, true));
  }

  lemma {:induction false} Settle<R>(rest: multiset<R>, own: multiset<R>, all: multiset<R>)
    requires rest + own == all + multiset{}
    ensures own + rest == all
  {
    assert own + rest == rest + own;
  }

  /** Two lists that have the same rules for all patterns match the same. */
  lemma {:induction false} SameHasSameMatch(a: seq<Entry>, b: seq<Entry>, s: string, t: string)
    requires Distinct(a) && Distinct(b) && SameHas(a, b)
    ensures FlatMatch(a, s, t, true) == FlatMatch(b, s, t, true)
    decreases |a|
  {
    if a == [] {
      EmptyMatch(b, s, t);
    } else {
      forall q: Path, u: Path
        ensures Has(a[1..], q, u) == Has(PutEntry(b, a[0].schema, a[0].table, []), q, u)
      {
        assert Has(a, q, u) == Has(b, q, u);
        PeelHas(a, b, q, u);
      }
      PutDistinct(b, a[0].schema, a[0].table, []);
      SameHasSameMatch(a[1..], PutEntry(b, a[0].schema, a[0].table, []), s, t);
      SelfKey(a[0].schema, a[0].table);
      assert Has(a, a[0].schema, a[0].table) == Has(b, a[0].schema, a[0].table);
      PeelMatch(a, b, s, t);
    }
  }

  // ---------- Inserting a listing ----------

  /** A listed pattern, or pair of patterns, and its rules. */
  datatype Listed = Listed(schema: string, table: string, rules: seq<Rule>)

  function Appends(schema: string, table: string, rules: seq<Rule>): seq<Op> {
    if rules == [] then [] else [InsertOp(schema, table, rules[0], Append)] + Appends(schema, table, rules[1..])
  }

  function Inserts(listing: seq<Listed>): seq<Op> {
    if listing == [] then [] else Appends(listing[0].schema, listing[0].table, listing[0].rules) + Inserts(listing[1..])
  }

  /** All rules listed for the same patterns. */
  function Total(listing: seq<Listed>, q: Path, u: Path): seq<Rule> {
    if listing == [] then []
    else (if IsFor(listing[0], q, u) then listing[0].rules else []) + Total(listing[1..], q, u)
  }

  predicate IsFor(e: Listed, q: Path, u: Path) {
    SameKey(Parse(e.schema).tokens, Parse(e.table).tokens, q, u)
  }

  predicate Legal(e: Listed) {
    e.schema != "" && Parse(e.schema).Good? && Parse(e.table).Good?
  }

  lemma {:induction false} RunAppend(list: seq<Entry>, a: seq<Op>, b: seq<Op>)
    ensures FlatRun(list, a + b).1 == FlatRun(FlatRun(list, a).1, b).1
    decreases |a|
  {
    if a == [] {
      assert a + b == b;
    } else {
      assert (a + b)[1..] == a[1..] + b;
      RunAppend(FlatStep(list, a[0]).1, a[1..], b);
    }
  }

  lemma {:induction false} AppendsHas(list: seq<Entry>, e: Listed, rules: seq<Rule>, q: Path, u: Path)
    requires Legal(e)
    ensures Has(FlatRun(list, Appends(e.schema, e.table, rules)).1, q, u) == Has(list, q, u) + (if IsFor(e, q, u) then rules else [])
    decreases |rules|
  {
    var schema, table := Parse(e.schema).tokens, Parse(e.table).tokens;
    if rules == [] {
      assert Has(list, q, u) + [] == Has(list, q, u);
    } else {
      var op := InsertOp(e.schema, e.table, rules[0], Append);
      var list' := FlatStep(list, op).1;
      assert Appends(e.schema, e.table, rules)[1..] == Appends(e.schema, e.table, rules[1..]);
      AppendsHas(list', e, rules[1..], q, u);
      HasPut(list, schema, table, Has(list, schema, table) + [rules[0]], q, u);
      if IsFor(e, q, u) {
        SameHere(list, schema, table, q, u);
        Associate(Has(list, q, u), [rules[0]], rules[1..]);
        assert rules == [rules[0]] + rules[1..];
      }
    }
  }

  lemma {:induction false} SameHere(list: seq<Entry>, schema: Path, table: Path, q: Path, u: Path)
    requires SameKey(schema, table, q, u)
    ensures Has(list, schema, table) == Has(list, q, u)
  {
    if list != [] {
      SameHere(list[1..], schema, table, q, u);
      SameTokensSymmetric(list[0].schema, schema);
      SameTokensSymmetric(list[0].table, table);
      SameTokensSymmetric(list[0].schema, q);
      SameTokensSymmetric(list[0].table, u);
      SameKeys(schema, table, q, u, list[0].schema, list[0].table);
    }
  }

  lemma {:induction false} InsertsHas(list: seq<Entry>, listing: seq<Listed>, q: Path, u: Path)
    requires forall e :: e in listing ==> Legal(e)
    ensures Has(FlatRun(list, Inserts(listing)).1, q, u) == Has(list, q, u) + Total(listing, q, u)
    decreases |listing|
  {
    if listing == [] {
      assert Has(list, q, u) + [] == Has(list, q, u);
    } else {
      var e := listing[0];
      var own := Appends(e.schema, e.table, e.rules);
      RunAppend(list, own, Inserts(listing[1..]));
      AppendsHas(list, e, e.rules, q, u);
      InsertsHas(FlatRun(list, own).1, listing[1..], q, u);
      Associate(Has(list, q, u), if IsFor(e, q, u) then e.rules else [], Total(listing[1..], q, u));
    }
  }

  lemma {:induction false} TotalNone(listing: seq<Listed>, q: Path, u: Path)
    requires forall e :: e in listing ==> !IsFor(e, q, u)
    ensures Total(listing, q, u) == []
  {
    if listing != [] {
      TotalNone(listing[1..], q, u);
    }
  }

  lemma {:induction false} TotalOne(listing: seq<Listed>, i: nat, q: Path, u: Path)
    requires i < |listing| && IsFor(listing[i], q, u)
    requires forall k :: 0 <= k < |listing| && k != i ==> !IsFor(listing[k], q, u)
    ensures Total(listing, q, u) == listing[i].rules
  {
    if i == 0 {
      forall e | e in listing[1..]
        ensures !IsFor(e, q, u)
      {
        var k :| 0 <= k < |listing[1..]| && listing[1..][k] == e;
        assert listing[k + 1] == e;
      }
      TotalNone(listing[1..], q, u);
      assert listing[0].rules + [] == listing[0].rules;
    } else {
      TotalOne(listing[1..], i - 1, q, u);
      assert [] + Total(listing[1..], q, u) == Total(listing[1..], q, u);
    }
  }

  // ---------- A listing of all rules ----------

  /** Whether the maps have rules for the patterns, and which. */
  function RulesFor(schemaRules: map<string, seq<Rule>>, tableRules: TableRules, schema: string, table: string): Option<seq<Rule>> {
    if table == "" then
      (if schema in schemaRules then Some(schemaRules[schema]) else None)
    else if schema in tableRules && table in tableRules[schema] then Some(tableRules[schema][table])
    else None
  }

  /** All entries of the two maps, each once, in any order. */
  ghost predicate Enumerates(listing: seq<Listed>, schemaRules: map<string, seq<Rule>>, tableRules: TableRules) {
    && (forall e :: e in listing ==> RulesFor(schemaRules, tableRules, e.schema, e.table) == Some(e.rules))
    && (forall schema: string, table: string {:trigger RulesFor(schemaRules, tableRules, schema, table)} ::
          RulesFor(schemaRules, tableRules, schema, table).Some? ==>
            Listed(schema, table, RulesFor(schemaRules, tableRules, schema, table).value) in listing)
    && (forall i, j :: 0 <= i < j < |listing| ==> listing[i] != listing[j])
  }

  /** What a trie has for two texts. */
  predicate Holds(root: Node, schema: string, table: string) {
    if table == "" then HasRules(root, schema)
    else HasNext(root, schema) && HasRules(NextAt(root, Parse(schema).tokens).value, table)
  }

  /** The maps have exactly what the trie has. */
  lemma {:induction false} MapsHold(root: Node, schemaRules: map<string, seq<Rule>>, tableRules: TableRules, schema: string, table: string)
    requires RulesListed(root, schemaRules) && TablesListed(root, tableRules)
    ensures var r := RulesFor(schemaRules, tableRules, schema, table);
            (r.Some? <==> Holds(root, schema, table))
            && (r.Some? ==> Parse(schema).tokens != [] && r.value == TrieRules(root, Parse(schema).tokens, Parse(table).tokens))
  {
    assert TableListed(root, tableRules, schema);
    if table != "" {
      ParseShape(table);
      if HasNext(root, schema) && schema !in tableRules {
        var rules: map<string, seq<Rule>> := map[];
        assert RulesListed(NextAt(root, Parse(schema).tokens).value, rules);
        assert table !in rules;
      }
    }
  }

  lemma {:induction false} SameTrieRules(root: Node, schema: Path, table: Path, q: Path, u: Path)
    requires schema != [] && SameKey(schema, table, q, u)
    ensures q != [] && TrieRules(root, schema, table) == TrieRules(root, q, u)
  {
    SameLookup(root, schema, q);
    if table != [] {
      SameLookup(NextOrEmpty(root, schema), table, u);
    }
  }

  /** Two listed entries for the same patterns are the same. */
  lemma {:induction false} HoldsOnce(root: Node, schema: string, table: string, schema': string, table': string, q: Path, u: Path)
    requires Wf(root, false) && Holds(root, schema, table) && Holds(root, schema', table')
    requires SameKey(Parse(schema).tokens, Parse(table).tokens, q, u) && SameKey(Parse(schema').tokens, Parse(table').tokens, q, u)
    ensures schema == schema' && table == table'
  {
    var p, p', v, v' := Parse(schema).tokens, Parse(schema').tokens, Parse(table).tokens, Parse(table').tokens;
    SameTokensSymmetric(p', q);
    SameTokensSymmetric(v', u);
    SameTokensTransitive(p, q, p');
    SameTokensTransitive(v, u, v');
    PresentOnce(root, p, p', false);
    PatternRoundTrip(schema);
    PatternRoundTrip(schema');
    ParseShape(table);
    ParseShape(table');
    if table != "" && table' != "" {
      NextWf(root, schema);
      PresentOnce(NextAt(root, p).value, v, v', false);
      PatternRoundTrip(table);
      PatternRoundTrip(table');
    }
  }

  /** A path of a node, by the text it was made with. */
  lemma {:induction false} TextHeld(n: Node, q: Path) returns (text: string)
    requires Wf(n, false) && q != [] && Lookup(n, q).Some?
    ensures Names(n, text) && SameTokens(Parse(text).tokens, q) && text != ""
    ensures Lookup(n, Parse(text).tokens) == Lookup(n, q)
  {
    var p := Canonical(n, q, false);
    PresentReadsBack(n, p);
    text := Text(p);
  }

  lemma {:induction false} RulesThere(root: Node, q: Path, u: Path)
    requires q != [] && TrieRules(root, q, u) != []
    ensures Lookup(root, q).Some?
    ensures u != [] ==> NextAt(root, q).Some? && Lookup(NextAt(root, q).value, u).Some?
  {
    if u != [] {
      NothingInEmpty(u);
    }
  }

  /** Patterns with rules are listed under a text of the trie. */
  lemma {:induction false} RulesHeld(root: Node, q: Path, u: Path) returns (schema: string, table: string)
    requires Wf(root, false) && q != [] && TrieRules(root, q, u) != []
    ensures Holds(root, schema, table) && SameKey(Parse(schema).tokens, Parse(table).tokens, q, u)
  {
    RulesThere(root, q, u);
    schema := TextHeld(root, q);
    if u == [] {
      table := "";
    } else {
      NextWf(root, schema);
      table := TextHeld(NextAt(root, q).value, u);
    }
  }

  /** The list that a listing is inserted into has exactly the rules of the trie. */
  lemma {:induction false} ListingTotal(root: Node, schemaRules: map<string, seq<Rule>>, tableRules: TableRules, listing: seq<Listed>, q: Path, u: Path)
    requires Wf(root, false) && RulesListed(root, schemaRules) && TablesListed(root, tableRules) && Enumerates(listing, schemaRules, tableRules)
    ensures Total(listing, q, u) == if q == [] then [] else TrieRules(root, q, u)
  {
    if e :| e in listing && IsFor(e, q, u) {
      var i :| 0 <= i < |listing| && listing[i] == e;
      MapsHold(root, schemaRules, tableRules, e.schema, e.table);
      SameTrieRules(root, Parse(e.schema).tokens, Parse(e.table).tokens, q, u);
      forall k | 0 <= k < |listing| && k != i
        ensures !IsFor(listing[k], q, u)
      {
        assert listing[k] in listing;
        if IsFor(listing[k], q, u) {
          MapsHold(root, schemaRules, tableRules, listing[k].schema, listing[k].table);
          HoldsOnce(root, e.schema, e.table, listing[k].schema, listing[k].table, q, u);
        }
      }
      TotalOne(listing, i, q, u);
    } else {
      TotalNone(listing, q, u);
      if q != [] && TrieRules(root, q, u) != [] {
        var schema, table := RulesHeld(root, q, u);
        MapsHold(root, schemaRules, tableRules, schema, table);
        var e := Listed(schema, table, RulesFor(schemaRules, tableRules, schema, table).value);
        assert e in listing && IsFor(e, q, u);
        assert false;
      }
    }
  }

  lemma {:induction false} StepWf(root: Node, op: Op)
    requires Wf(root, false)
    ensures Wf(TrieStep(root, op).1, false)
  {
    if op.schema != "" {
      match op
      case InsertOp(schema, table, rule, insertType) =>
        if table == "" {
          InsertWf(root, schema, Some(rule), insertType);
        } else {
          PairWf(root, schema, table, rule, insertType);
        }
      case RemoveOp(schema, table) =>
        if table == "" {
          if RemoveAt(root, schema).Some? {
            RemoveWf(root, schema);
          }
        } else if RemovePair(root, schema, table).Some? {
          RemovePairWf(root, schema, table);
        }
    }
  }

  lemma {:induction false} RunWf(root: Node, ops: seq<Op>)
    requires Wf(root, false)
    ensures Wf(TrieRun(root, ops).1, false)
    decreases |ops|
  {
    if ops != [] {
      StepWf(root, ops[0]);
      RunWf(TrieStep(root, ops[0]).1, ops[1..]);
    }
  }

  lemma {:induction false} HasNothing(list: seq<Entry>, u: Path)
    requires Distinct(list)
    ensures Has(list, [], u) == []
  {
    if list != [] {
      HasNothing(list[1..], u);
    }
  }

  lemma {:induction false} ListingLegal(root: Node, schemaRules: map<string, seq<Rule>>, tableRules: TableRules, listing: seq<Listed>, e: Listed)
    requires RulesListed(root, schemaRules) && TablesListed(root, tableRules) && Enumerates(listing, schemaRules, tableRules) && e in listing
    ensures Legal(e)
  {
    MapsHold(root, schemaRules, tableRules, e.schema, e.table);
    assert Parse("").Good?;
  }

  lemma {:induction false} SameAfter(root: Node, list: seq<Entry>, schemaRules: map<string, seq<Rule>>, tableRules: TableRules, listing: seq<Listed>,
                                     q: Path, u: Path)
    requires Wf(root, false) && RulesListed(root, schemaRules) && TablesListed(root, tableRules) && Enumerates(listing, schemaRules, tableRules)
    requires Distinct(list) && (q != [] ==> TrieRules(root, q, u) == Has(list, q, u))
    ensures Has(FlatRun([], Inserts(listing)).1, q, u) == Has(list, q, u)
  {
    forall e | e in listing
      ensures Legal(e)
    {
      ListingLegal(root, schemaRules, tableRules, listing, e);
    }
    InsertsHas([], listing, q, u);
    ListingTotal(root, schemaRules, tableRules, listing, q, u);
    assert [] + Total(listing, q, u) == Total(listing, q, u);
    if q == [] {
      HasNothing(list, u);
    }
  }

  /**
   * After any operations, whatever order the listed rules are inserted into an empty selector in, it matches the same, on
   * all names.
   */
  lemma {:induction false} ReinsertedMatchesSame(ops: seq<Op>, root: Node, schemaRules: map<string, seq<Rule>>, tableRules: TableRules,
                                                 listing: seq<Listed>, s: string, t: string)
    requires root == TrieRun(EMPTY, ops).1 && RulesListed(root, schemaRules) && TablesListed(root, tableRules)
    requires Enumerates(listing, schemaRules, tableRules)
    ensures multiset(Lookups(TrieRun(EMPTY, Inserts(listing)).1, s, t, true)) == multiset(Lookups(root, s, t, true))
  {
    var list, list' := FlatRun([], ops).1, FlatRun([], Inserts(listing)).1;
    RunDistinct([], ops);
    RunDistinct([], Inserts(listing));
    RunWf(EMPTY, ops);
    forall q: Path, u: Path
      ensures Has(list', q, u) == Has(list, q, u)
    {
      ReachedRules(ops, q, u);
      SameAfter(root, list, schemaRules, tableRules, listing, q, u);
    }
    SameHasSameMatch(list', list, s, t);
    TrieRefinesList(ops, s, t);
    TrieRefinesList(Inserts(listing), s, t);
  }

  lemma {:induction false} ReachedRules(ops: seq<Op>, q: Path, u: Path)
    ensures q != [] ==> TrieRules(TrieRun(EMPTY, ops).1, q, u) == Has(FlatRun([], ops).1, q, u)
  {
    EmptyRefines();
    RunRefines(EMPTY, [], ops);
  }
}
