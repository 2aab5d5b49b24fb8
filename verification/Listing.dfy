/**
 * Listing the rules of a selector (`AllRules` and `travel`, pkg/table-rule-selector/trie_selector.go:525-580 and 640-648).
 * The walk visits every path of a trie, the characters of a node in any order, and enters what it finds under the
 * path's text; since that text is read as the same path again, no entry overwrites another.
 */
module Listings {
  import opened Sequences
  import opened Wrappers
  import opened Patterns
  import opened Trie
  import opened Selectors

  // ---------- Paths of a trie ----------

  /** A range as it is stored. */
  predicate Stored(n: Node, t: Token) {
    t.Range? ==> exists i :: 0 <= i < |n.ranges| && n.ranges[i].key == t
  }

  /** A path of the trie itself, with the ranges as they are stored. */
  predicate Present(n: Node, p: Path)
    decreases |p|
  {
    && p != [] && Edge(n, p[0]).Some? && Stored(n, p[0])
    && (|p| == 1 || (p[0] != Star && Present(Edge(n, p[0]).value.child, p[1..])))
  }

  lemma {:induction false} StoredLegible(n: Node, t: Token, inBracket: bool)
    requires Wf(n, inBracket) && Edge(n, t).Some? && Stored(n, t)
    ensures Legible(t, inBracket)
  {
  }

  lemma {:induction false} PresentLegible(n: Node, p: Path, inBracket: bool)
    requires Wf(n, inBracket) && Present(n, p)
    ensures LegiblePath(p, inBracket) && StarLast(p)
    decreases |p|
  {
    StoredLegible(n, p[0], inBracket);
    if |p| > 1 {
      EdgeWf(n, p[0], inBracket);
      PresentLegible(Edge(n, p[0]).value.child, p[1..], inBracket || Opens(p[0]));
    }
  }

  /** The text of a path of the trie is read as that path. */
  lemma {:induction false} PresentReadsBack(n: Node, p: Path)
    requires Wf(n, false) && Present(n, p)
    ensures Parse(Text(p)) == Good(p)
  {
    PresentLegible(n, p, false);
    TextReadsBack(p, false);
  }

  lemma {:induction false} FindExact(edges: seq<RangeEdge>, i: nat)
    requires DistinctKeys(edges) && i < |edges|
    ensures FindRange(edges, edges[i].key) == Some(edges[i].item)
  {
    if i == 0 {
      SameTokenEquivalence(edges[0].key, edges[0].key, edges[0].key);
    } else {
      FindExact(edges[1..], i - 1);
    }
  }

  lemma {:induction false} FindKey(edges: seq<RangeEdge>, t: Token) returns (i: nat)
    requires FindRange(edges, t).Some?
    ensures i < |edges| && SameToken(edges[i].key, t) && FindRange(edges, t) == Some(edges[i].item)
  {
    if SameToken(edges[0].key, t) {
      i := 0;
    } else {
      var k := FindKey(edges[1..], t);
      i := k + 1;
    }
  }

  /** A path that leads somewhere is, up to the text of its ranges, a path of the trie. */
  lemma {:induction false} Canonical(n: Node, q: Path, inBracket: bool) returns (p: Path)
    requires Wf(n, inBracket) && q != [] && Lookup(n, q).Some?
    ensures Present(n, p) && SameTokens(p, q) && Lookup(n, p) == Lookup(n, q)
    decreases |q|
  {
    var t := q[0];
    if q[0].Range? {
      var i := FindKey(n.ranges, q[0]);
      t := n.ranges[i].key;
      FindExact(n.ranges, i);
    } else {
      SameTokenEquivalence(t, t, t);
    }
    if |q| == 1 {
      p := [t];
    } else {
      var item := Edge(n, q[0]).value;
      EdgeWf(n, q[0], inBracket);
      if q[0] == Star {
        NothingInEmpty(q[1..]);
      }
      var rest := Canonical(item.child, q[1..], inBracket || Opens(q[0]));
      p := [t] + rest;
      assert p[1..] == rest;
      SameTokensTail(p, q);
    }
  }

  lemma {:induction false} StoredOnce(n: Node, t: Token, u: Token)
    requires DistinctKeys(n.ranges) && Stored(n, t) && Stored(n, u) && SameToken(t, u)
    ensures t == u
  {
    if t.Range? {
      var i :| 0 <= i < |n.ranges| && n.ranges[i].key == t;
      var j :| 0 <= j < |n.ranges| && n.ranges[j].key == u;
      SameTokenEquivalence(t, u, t);
      assert i == j;
    }
  }

  /** Two paths of a trie that it does not tell apart are the same. */
  lemma {:induction false} PresentOnce(n: Node, p: Path, q: Path, inBracket: bool)
    requires Wf(n, inBracket) && Present(n, p) && Present(n, q) && SameTokens(p, q)
    ensures p == q
    decreases |p|
  {
    SameTokensTail(p, q);
    StoredOnce(n, p[0], q[0]);
    if |p| > 1 {
      EdgeWf(n, p[0], inBracket);
      PresentOnce(Edge(n, p[0]).value.child, p[1..], q[1..], inBracket || Opens(p[0]));
      assert p == [p[0]] + p[1..] && q == [q[0]] + q[1..];
    } else {
      assert p == [p[0]] && q == [q[0]];
    }
  }

  // ---------- Lists of paths ----------

  function Under(t: Token, paths: seq<Path>): seq<Path> {
    seq(|paths|, i requires 0 <= i < |paths| => [t] + paths[i])
  }

  lemma {:induction false} InUnder(t: Token, paths: seq<Path>, p: Path)
    ensures p in Under(t, paths) <==> p != [] && p[0] == t && p[1..] in paths
  {
    if p != [] && p[0] == t && p[1..] in paths {
      var i :| 0 <= i < |paths| && paths[i] == p[1..];
      assert Under(t, paths)[i] == p;
    }
  }

  /** All paths of a trie that start with some of its edges. */
  ghost predicate Lists(n: Node, paths: seq<Path>, firsts: set<Token>) {
    forall p: Path :: p in paths <==> Present(n, p) && p[0] in firsts
  }

  /** An edge's own path, and those below it. */
  lemma {:induction false} ListsEdge(n: Node, t: Token, below: seq<Path>)
    requires Edge(n, t).Some? && t != Star && Stored(n, t)
    requires forall p: Path :: p in below <==> Present(Edge(n, t).value.child, p)
    ensures Lists(n, [[t]] + Under(t, below), {t})
  {
    forall p: Path
      ensures p in [[t]] + Under(t, below) <==> Present(n, p) && p[0] in {t}
    {
      InUnder(t, below, p);
      if p != [] && |p| == 1 && p[0] == t {
        assert p == [t];
      }
      if p != [] && |p| == 1 {
        assert p[1..] == [];
      }
    }
  }

  // ---------- Filling the maps ----------

  /** The rules by pattern, and for schema patterns the tries they lead to. */
  datatype Found = Found(rules: map<string, seq<Rule>>, nodes: Option<map<string, Node>>)

  function Enter(found: Found, pattern: string, item: Item): Found {
    Found(if item.rule != [] then found.rules[pattern := item.rule] else found.rules,
          if found.nodes.Some? && item.next.Some? then Some(found.nodes.value[pattern := item.next.value]) else found.nodes)
  }

  function ItemOf(n: Node, p: Path): Item {
    if p == [] then FRESH else LookupOrFresh(n, p)
  }

  function Filled(found: Found, n: Node, word: string, paths: seq<Path>): Found
    decreases |paths|
  {
    if paths == [] then found else Filled(Enter(found, word + Text(paths[0]), ItemOf(n, paths[0])), n, word, paths[1..])
  }

  lemma {:induction false} FilledAppend(found: Found, n: Node, word: string, a: seq<Path>, b: seq<Path>)
    ensures Filled(found, n, word, a + b) == Filled(Filled(found, n, word, a), n, word, b)
    decreases |a|
  {
    if a == [] {
      assert a + b == b;
    } else {
      assert (a + b)[1..] == a[1..] + b;
      FilledAppend(Enter(found, word + Text(a[0]), ItemOf(n, a[0])), n, word, a[1..], b);
    }
  }

  lemma {:induction false} FilledMore(found: Found, n: Node, word: string, a: seq<Path>, b: seq<Path>, firsts: set<Token>, t: Token)
    requires Lists(n, a, firsts) && Lists(n, b, {t})
    ensures Lists(n, a + b, firsts + {t})
    ensures Filled(found, n, word, a + b) == Filled(Filled(found, n, word, a), n, word, b)
  {
    FilledAppend(found, n, word, a, b);
  }

  lemma {:induction false} TextUnder(word: string, t: Token, p: Path)
    ensures word + Text([t] + p) == word + TokenText(t) + Text(p)
  {
    assert ([t] + p)[1..] == p;
    Associate(word, TokenText(t), Text(p));
  }

  lemma {:induction false} FilledUnder(found: Found, n: Node, word: string, t: Token, paths: seq<Path>)
    requires Edge(n, t).Some? && forall i :: 0 <= i < |paths| ==> paths[i] != []
    ensures Filled(found, n, word, Under(t, paths)) == Filled(found, Edge(n, t).value.child, word + TokenText(t), paths)
    decreases |paths|
  {
    if paths != [] {
      var p := paths[0];
      assert Under(t, paths)[0] == [t] + p && ([t] + p)[1..] == p;
      assert Under(t, paths)[1..] == Under(t, paths[1..]);
      TextUnder(word, t, p);
      assert ItemOf(n, [t] + p) == ItemOf(Edge(n, t).value.child, p);
      FilledUnder(Enter(found, word + Text([t] + p), ItemOf(n, [t] + p)), n, word, t, paths[1..]);
    }
  }

  lemma {:induction false} FilledOne(found: Found, n: Node, word: string, t: Token)
    requires Edge(n, t).Some?
    ensures Filled(found, n, word, [[t]]) == Enter(found, word + TokenText(t), Edge(n, t).value)
  {
    assert [[t]][1..] == [];
    assert Text([t]) == TokenText(t) + "" == TokenText(t);
  }

  lemma {:induction false} FilledEdge(found: Found, n: Node, word: string, t: Token, below: seq<Path>)
    requires Edge(n, t).Some? && forall p: Path :: p in below ==> Present(Edge(n, t).value.child, p)
    ensures Filled(found, n, word, [[t]] + Under(t, below))
            == Filled(Enter(found, word + TokenText(t), Edge(n, t).value), Edge(n, t).value.child, word + TokenText(t), below)
  {
    FilledOne(found, n, word, t);
    FilledAppend(found, n, word, [[t]], Under(t, below));
    forall i | 0 <= i < |below|
      ensures below[i] != []
    {
      assert below[i] in below;
    }
    FilledUnder(Enter(found, word + TokenText(t), Edge(n, t).value), n, word, t, below);
  }

  /** One edge: the item itself and what lies below it. */
  method TravelEdge(n: Node, t: Token, item: Item, word: string, found: Found, ghost inBracket: bool)
      returns (r: Found, ghost paths: seq<Path>)
    requires Edge(n, t) == Some(item) && t != Star && Stored(n, t)
    requires Wf(item.child, inBracket)
    ensures Lists(n, paths, {t}) && r == Filled(found, n, word, paths)
    decreases item, 0
  {
    var pattern := word + TokenText(t);
    r := Enter(found, pattern, item);
    ghost var below;
    r, below := Travel(item.child, pattern, r, inBracket);
    paths := [[t]] + Under(t, below);
    ListsEdge(n, t, below);
    FilledEdge(found, n, word, t, below);
  }

  /** A range edge as the walk over them uses it. */
  predicate Walkable(n: Node, i: nat, inBracket: bool)
    requires i < |n.ranges|
  {
    var e := n.ranges[i];
    Edge(n, e.key) == Some(e.item) && e.key != Star && Stored(n, e.key) && Wf(e.item.child, inBracket)
  }

  lemma {:induction false} RangeWalkable(n: Node, i: nat, inBracket: bool)
    requires Wf(n, inBracket) && i < |n.ranges|
    ensures Walkable(n, i, inBracket)
  {
    FindExact(n.ranges, i);
  }

  lemma {:induction false} AllWalkable(n: Node, inBracket: bool)
    requires Wf(n, inBracket)
    ensures forall i :: 0 <= i < |n.ranges| ==> Walkable(n, i, inBracket)
  {
    forall i | 0 <= i < |n.ranges|
      ensures Walkable(n, i, inBracket)
    {
      RangeWalkable(n, i, inBracket);
    }
  }

  predicate KeysIn(n: Node, i: nat, firsts: set<Token>)
    requires i <= |n.ranges|
  {
    i == 0 || (n.ranges[i - 1].key in firsts && KeysIn(n, i - 1, firsts))
  }

  lemma {:induction false} KeysKept(n: Node, i: nat, given: set<Token>, firsts: set<Token>)
    requires i <= |n.ranges| && KeysIn(n, i, given) && given <= firsts
    ensures KeysIn(n, i, firsts)
  {
    if i > 0 {
      KeysKept(n, i - 1, given, firsts);
    }
  }

  lemma {:induction false} KeysMore(n: Node, i: nat, firsts: set<Token>, t: Token)
    requires i < |n.ranges| && KeysIn(n, i, firsts) && t == n.ranges[i].key
    ensures KeysIn(n, i + 1, firsts + {t})
  {
    KeysKept(n, i, firsts, firsts + {t});
  }

  lemma {:induction false} KeyIn(n: Node, i: nat, firsts: set<Token>, k: nat)
    requires k < i <= |n.ranges| && KeysIn(n, i, firsts)
    ensures n.ranges[k].key in firsts
  {
    if k < i - 1 {
      KeyIn(n, i - 1, firsts, k);
    }
  }

  method TravelRanges(n: Node, word: string, found: Found, ghost inBracket: bool, sofar: Found, ghost listed: seq<Path>, ghost given: set<Token>)
      returns (r: Found, ghost paths: seq<Path>, ghost firsts: set<Token>)
    requires (forall i :: 0 <= i < |n.ranges| ==> Walkable(n, i, inBracket)) && Lists(n, listed, given) && sofar == Filled(found, n, word, listed)
    ensures Lists(n, paths, firsts) && r == Filled(found, n, word, paths)
    ensures given <= firsts && KeysIn(n, |n.ranges|, firsts)
    decreases n, 0
  {
    r, paths, firsts := sofar, listed, given;
    for i := 0 to |n.ranges|
      invariant Lists(n, paths, firsts) && r == Filled(found, n, word, paths)
      invariant given <= firsts && KeysIn(n, i, firsts)
    {
      var t, item := n.ranges[i].key, n.ranges[i].item;
      assert Walkable(n, i, inBracket);
      ghost var more;
      r, more := TravelEdge(n, t, item, word, r, inBracket);
      FilledMore(found, n, word, paths, more, firsts, t);
      KeysMore(n, i, firsts, t);
      paths, firsts := paths + more, firsts + {t};
    }
  }

  /** The characters, in any order. */
  method TravelCharacters(n: Node, word: string, found: Found, ghost inBracket: bool, sofar: Found, ghost listed: seq<Path>, ghost given: set<Token>)
      returns (r: Found, ghost paths: seq<Path>, ghost firsts: set<Token>)
    requires Wf(n, inBracket) && Lists(n, listed, given) && sofar == Filled(found, n, word, listed)
    ensures Lists(n, paths, firsts) && r == Filled(found, n, word, paths)
    ensures given <= firsts && forall c :: c in n.characters ==> Char(c) in firsts
    decreases n, 0
  {
    r, paths, firsts := sofar, listed, given;
    var todo := n.characters.Keys;
    while todo != {}
      invariant todo <= n.characters.Keys
      invariant Lists(n, paths, firsts) && r == Filled(found, n, word, paths)
      invariant given <= firsts && forall c :: c in n.characters && c !in todo ==> Char(c) in firsts
      decreases todo
    {
      var c :| c in todo;
      ghost var more;
      r, more := TravelEdge(n, Char(c), n.characters[c], word, r, inBracket || c == '[');
      FilledMore(found, n, word, paths, more, firsts, Char(c));
      paths, firsts, todo := paths + more, firsts + {Char(c)}, todo - {c};
    }
  }

  /** Lists the rules of a trie by their patterns' texts. */
  method Travel(n: Node, word: string, found: Found, ghost inBracket: bool) returns (r: Found, ghost paths: seq<Path>)
    requires Wf(n, inBracket)
    ensures forall p: Path :: p in paths <==> Present(n, p)
    ensures r == Filled(found, n, word, paths)
    decreases n, 1
  {
    r, paths := found, [];
    ghost var firsts: set<Token> := {};
    if n.asterisk.Some? {
      r := Enter(r, word + "*", n.asterisk.value);
      FilledOne(found, n, word, Star);
      paths, firsts := [[Star]], {Star};
      StarListed(n);
    }
    if n.question.Some? {
      ghost var more;
      r, more := TravelEdge(n, Any, n.question.value, word, r, inBracket);
      FilledMore(found, n, word, paths, more, firsts, Any);
      paths, firsts := paths + more, firsts + {Any};
    }
    AllWalkable(n, inBracket);
    r, paths, firsts := TravelRanges(n, word, found, inBracket, r, paths, firsts);
    ghost var given := firsts;
    r, paths, firsts := TravelCharacters(n, word, found, inBracket, r, paths, firsts);
    KeysKept(n, |n.ranges|, given, firsts);
    AllListed(n, paths, firsts);
  }

  lemma {:induction false} StarListed(n: Node)
    requires n.asterisk.Some?
    ensures Lists(n, [[Star]], {Star})
  {
    forall p: Path
      ensures p in [[Star]] <==> Present(n, p) && p[0] in {Star}
    {
      if p != [] && |p| == 1 && p[0] == Star {
        assert p == [Star];
      }
    }
  }

  lemma {:induction false} AllListed(n: Node, paths: seq<Path>, firsts: set<Token>)
    requires Lists(n, paths, firsts)
    requires (n.asterisk.Some? ==> Star in firsts) && (n.question.Some? ==> Any in firsts)
    requires KeysIn(n, |n.ranges|, firsts)
    requires forall c :: c in n.characters ==> Char(c) in firsts
    ensures forall p: Path :: p in paths <==> Present(n, p)
  {
    forall p: Path | Present(n, p)
      ensures p[0] in firsts
    {
      if p[0].Range? {
        var k :| 0 <= k < |n.ranges| && n.ranges[k].key == p[0];
        KeyIn(n, |n.ranges|, firsts, k);
      }
    }
  }

  // ---------- What is listed ----------

  /** The text of a path of the trie. */
  predicate Names(n: Node, text: string) {
    Parse(text).Good? && Present(n, Parse(text).tokens)
  }

  predicate HasRules(n: Node, text: string) {
    Names(n, text) && RuleAt(n, Parse(text).tokens) != []
  }

  predicate HasNext(n: Node, text: string) {
    Names(n, text) && NextAt(n, Parse(text).tokens).Some?
  }

  /** Exactly the patterns with rules, each with its rules. */
  ghost predicate RulesListed(n: Node, rules: map<string, seq<Rule>>) {
    forall text: string ::
      (text in rules <==> HasRules(n, text)) && (text in rules ==> rules[text] == RuleAt(n, Parse(text).tokens))
  }

  ghost predicate NodesListed(n: Node, nodes: map<string, Node>) {
    forall text: string ::
      (text in nodes <==> HasNext(n, text)) && (text in nodes ==> nodes[text] == NextAt(n, Parse(text).tokens).value)
  }

  /** The map has what the item has. */
  predicate Shows(found: Found, text: string, item: Item) {
    && (text in found.rules <==> item.rule != []) && (text in found.rules ==> found.rules[text] == item.rule)
    && (found.nodes.Some? ==>
          (text in found.nodes.value <==> item.next.Some?) && (text in found.nodes.value ==> found.nodes.value[text] == item.next.value))
  }

  /** What is not there is shown as a fresh item. */
  lemma {:induction false} EnterShows(found: Found, text: string, item: Item, other: string, shown: Item)
    requires Shows(found, other, shown) && (text == other ==> shown == FRESH || shown == item)
    ensures Shows(Enter(found, text, item), other, if text == other then item else shown)
  {
  }

  lemma {:induction false} FilledElsewhere(found: Found, n: Node, paths: seq<Path>, text: string, shown: Item)
    requires Shows(found, text, shown) && forall i :: 0 <= i < |paths| ==> Text(paths[i]) != text
    ensures Shows(Filled(found, n, "", paths), text, shown)
    decreases |paths|
  {
    if paths != [] {
      assert "" + Text(paths[0]) == Text(paths[0]);
      EnterShows(found, Text(paths[0]), ItemOf(n, paths[0]), text, shown);
      FilledElsewhere(Enter(found, Text(paths[0]), ItemOf(n, paths[0])), n, paths[1..], text, shown);
    }
  }

  lemma {:induction false} FilledShows(found: Found, n: Node, paths: seq<Path>, p: Path, shown: Item)
    requires p in paths && Shows(found, Text(p), shown) && (shown == FRESH || shown == ItemOf(n, p))
    requires forall i :: 0 <= i < |paths| && Text(paths[i]) == Text(p) ==> paths[i] == p
    ensures Shows(Filled(found, n, "", paths), Text(p), ItemOf(n, p))
    decreases |paths|
  {
    var first := paths[0];
    var found' := Enter(found, Text(first), ItemOf(n, first));
    assert "" + Text(first) == Text(first);
    EnterShows(found, Text(first), ItemOf(n, first), Text(p), shown);
    if p in paths[1..] {
      FilledShows(found', n, paths[1..], p, if Text(first) == Text(p) then ItemOf(n, first) else shown);
    } else {
      assert first == p;
      NotBehind(paths[1..], p, paths);
      FilledElsewhere(found', n, paths[1..], Text(p), ItemOf(n, p));
    }
  }

  lemma {:induction false} NotBehind(tail: seq<Path>, p: Path, paths: seq<Path>)
    requires paths != [] && tail == paths[1..] && p !in tail
    requires forall i :: 0 <= i < |paths| && Text(paths[i]) == Text(p) ==> paths[i] == p
    ensures forall i :: 0 <= i < |tail| ==> Text(tail[i]) != Text(p)
  {
    forall i | 0 <= i < |tail|
      ensures Text(tail[i]) != Text(p)
    {
      assert paths[i + 1] == tail[i] && tail[i] in tail;
    }
  }

  lemma {:induction false} ListedAt(n: Node, paths: seq<Path>, found: Found, text: string)
    requires Wf(n, false) && (forall p: Path :: p in paths <==> Present(n, p)) && found.rules == map[] && (found.nodes.Some? ==> found.nodes.value == map[])
    ensures var r := Filled(found, n, "", paths);
            r.nodes.Some? == found.nodes.Some? && Shows(r, text, if Names(n, text) then LookupOrFresh(n, Parse(text).tokens) else FRESH)
  {
    NodesStay(found, n, paths);
    forall i | 0 <= i < |paths|
      ensures Parse(Text(paths[i])) == Good(paths[i])
    {
      assert paths[i] in paths;
      PresentReadsBack(n, paths[i]);
    }
    if Names(n, text) {
      var p := Parse(text).tokens;
      PatternRoundTrip(text);
      FilledShows(found, n, paths, p, FRESH);
    } else {
      forall i | 0 <= i < |paths|
        ensures Text(paths[i]) != text
      {
        assert paths[i] in paths;
      }
      FilledElsewhere(found, n, paths, text, FRESH);
    }
  }

  lemma {:induction false} NodesStay(found: Found, n: Node, paths: seq<Path>)
    ensures Filled(found, n, "", paths).nodes.Some? == found.nodes.Some?
    decreases |paths|
  {
    if paths != [] {
      NodesStay(Enter(found, "" + Text(paths[0]), ItemOf(n, paths[0])), n, paths[1..]);
    }
  }

  /** The rules of one trie, and for a schema's the tries it leads to. */
  method TravelAll(n: Node, withNodes: bool) returns (rules: map<string, seq<Rule>>, nodes: map<string, Node>)
    requires Wf(n, false)
    ensures RulesListed(n, rules) && (withNodes ==> NodesListed(n, nodes))
  {
    var found := Found(map[], if withNodes then Some(map[]) else None);
    ghost var paths;
    var r;
    r, paths := Travel(n, "", found, false);
    rules, nodes := r.rules, if r.nodes.Some? then r.nodes.value else map[];
    forall text: string
      ensures (text in rules <==> HasRules(n, text)) && (text in rules ==> rules[text] == RuleAt(n, Parse(text).tokens))
      ensures withNodes ==> (text in nodes <==> HasNext(n, text)) && (text in nodes ==> nodes[text] == NextAt(n, Parse(text).tokens).value)
    {
      ListedAt(n, paths, found, text);
    }
  }

  type TableRules = map<string, map<string, seq<Rule>>>

  /** A schema pattern is listed exactly if it leads to tables with rules, and with exactly these. */
  ghost predicate TableListed(root: Node, tables: TableRules, schema: string) {
    && (schema in tables ==> HasNext(root, schema) && tables[schema] != map[] && RulesListed(NextAt(root, Parse(schema).tokens).value, tables[schema]))
    && (HasNext(root, schema) && schema !in tables ==> RulesListed(NextAt(root, Parse(schema).tokens).value, map[]))
  }

  ghost predicate TablesListed(root: Node, tables: TableRules) {
    forall schema: string :: TableListed(root, tables, schema)
  }

  /** All but the schemas still to be visited. */
  ghost predicate ListedBut(root: Node, tables: TableRules, todo: set<string>) {
    forall schema: string :: schema !in todo ==> TableListed(root, tables, schema)
  }

  lemma {:induction false} OneMoreListed(root: Node, tables: TableRules, todo: set<string>, schema: string, rules: map<string, seq<Rule>>)
    requires ListedBut(root, tables, todo) && schema in todo && schema !in tables
    requires HasNext(root, schema) && RulesListed(NextAt(root, Parse(schema).tokens).value, rules)
    ensures ListedBut(root, if rules != map[] then tables[schema := rules] else tables, todo - {schema})
  {
    var tables' := if rules != map[] then tables[schema := rules] else tables;
    forall other: string | other !in todo - {schema}
      ensures TableListed(root, tables', other)
    {
      if other != schema {
        assert TableListed(root, tables, other);
      }
    }
  }

  lemma {:induction false} NextWf(root: Node, schema: string)
    requires Wf(root, false) && HasNext(root, schema)
    ensures Wf(NextAt(root, Parse(schema).tokens).value, false)
  {
    LookupWf(root, Parse(schema).tokens, false);
  }

  /** All rules by schema pattern, and by schema and table pattern. */
  method AllRules(root: Node) returns (schemaRules: map<string, seq<Rule>>, tableRules: TableRules)
    requires Wf(root, false)
    ensures RulesListed(root, schemaRules) && TablesListed(root, tableRules)
  {
    var schemaNodes;
    schemaRules, schemaNodes := TravelAll(root, true);
    tableRules := map[];
    var todo := schemaNodes.Keys;
    while todo != {}
      invariant todo <= schemaNodes.Keys && tableRules.Keys !! todo && ListedBut(root, tableRules, todo)
      decreases todo
    {
      var schema :| schema in todo;
      NextWf(root, schema);
      var rules, _ := TravelAll(schemaNodes[schema], false);
      OneMoreListed(root, tableRules, todo, schema, rules);
      if |rules| > 0 {
        tableRules := tableRules[schema := rules];
      }
      todo := todo - {schema};
    }
  }
}
