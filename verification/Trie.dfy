/**
 * The trie of patterns (pkg/table-rule-selector/trie_selector.go), on values: a node has an edge for every literal
 * character, for `?`, for `*`, and for every range it has seen; an item at an edge has rules and may lead to a second trie.
 * Paths are looked up and changed by tokens; names are matched by a walk.
 */
module Trie {
  import opened Wrappers
  import opened Patterns
  import opened Runes

  type Rule = string

  datatype Item = Item(child: Node, rule: seq<Rule>, next: Option<Node>)

  datatype RangeEdge = RangeEdge(key: Token, item: Item)

  datatype Node = Node(characters: map<char, Item>, asterisk: Option<Item>, question: Option<Item>, ranges: seq<RangeEdge>)

  const EMPTY := Node(map[], None, None, [])

  const FRESH := Item(EMPTY, [], None)

  // ---------- Edges ----------

  function FindRange(edges: seq<RangeEdge>, t: Token): Option<Item> {
    if edges == [] then None
    else if SameToken(edges[0].key, t) then Some(edges[0].item)
    else FindRange(edges[1..], t)
  }

  function PutRange(edges: seq<RangeEdge>, t: Token, item: Item): seq<RangeEdge> {
    if edges == [] then [RangeEdge(t, item)]
    else if SameToken(edges[0].key, t) then [RangeEdge(edges[0].key, item)] + edges[1..]
    else [edges[0]] + PutRange(edges[1..], t, item)
  }

  function Edge(n: Node, t: Token): Option<Item> {
    match t
    case Char(c) => if c in n.characters then Some(n.characters[c]) else None
    case Any => n.question
    case Star => n.asterisk
    case Range(_, _) => FindRange(n.ranges, t)
  }

  function Put(n: Node, t: Token, item: Item): Node {
    match t
    case Char(c) => n.(characters := n.characters[c := item])
    case Any => n.(question := Some(item))
    case Star => n.(asterisk := Some(item))
    case Range(_, _) => n.(ranges := PutRange(n.ranges, t, item))
  }

  lemma {:induction false} FindPut(edges: seq<RangeEdge>, t: Token, item: Item, u: Token)
    ensures FindRange(PutRange(edges, t, item), u) == if SameToken(t, u) then Some(item) else FindRange(edges, u)
  {
    if edges != [] {
      SameTokenEquivalence(edges[0].key, t, u);
      SameTokenEquivalence(t, edges[0].key, u);
      if !SameToken(edges[0].key, t) {
        FindPut(edges[1..], t, item, u);
        SameTokenEquivalence(edges[0].key, u, t);
        SameTokenEquivalence(t, u, t);
        assert PutRange(edges, t, item)[1..] == PutRange(edges[1..], t, item);
      } else {
        assert PutRange(edges, t, item)[1..] == edges[1..];
      }
    }
  }

  lemma {:induction false} EdgePut(n: Node, t: Token, item: Item, u: Token)
    ensures Edge(Put(n, t, item), u) == if SameToken(t, u) then Some(item) else Edge(n, u)
  {
    if t.Range? && u.Range? {
      FindPut(n.ranges, t, item, u);
    }
  }

  // ---------- Following and changing a path ----------

  function ItemAt(n: Node, t: Token): Item {
    if Edge(n, t).Some? then Edge(n, t).value else FRESH
  }

  /** The item at the end of a path, if the path is there. */
  function Lookup(n: Node, path: seq<Token>): Option<Item>
    requires path != []
    decreases |path|
  {
    match Edge(n, path[0])
    case None => None
    case Some(item) => if |path| == 1 then Some(item) else Lookup(item.child, path[1..])
  }

  type Change = Item -> Item

  /** Creates what is missing of a path and changes the item at its end. */
  function Update(n: Node, path: seq<Token>, f: Change): Node
    requires path != []
    decreases |path|
  {
    var item := ItemAt(n, path[0]);
    Put(n, path[0], if |path| == 1 then f(item) else item.(child := Update(item.child, path[1..], f)))
  }

  function RuleAt(n: Node, path: seq<Token>): seq<Rule>
    requires path != []
  {
    if Lookup(n, path).Some? then Lookup(n, path).value.rule else []
  }

  function NextAt(n: Node, path: seq<Token>): Option<Node>
    requires path != []
  {
    if Lookup(n, path).Some? then Lookup(n, path).value.next else None
  }

  function LookupOrFresh(n: Node, path: seq<Token>): Item
    requires path != []
  {
    if Lookup(n, path).Some? then Lookup(n, path).value else FRESH
  }

  ghost predicate KeepsChild(f: Change) {
    forall i: Item :: f(i).child == i.child
  }

  lemma {:induction false} SameTokensTail(a: seq<Token>, b: seq<Token>)
    requires a != [] && b != []
    ensures SameTokens(a, b) <==> SameToken(a[0], b[0]) && SameTokens(a[1..], b[1..])
  {
    assert forall i :: 0 < i < |a| ==> a[i] == a[1..][i - 1];
    assert forall i :: 0 < i < |b| ==> b[i] == b[1..][i - 1];
  }

  /** A change at a path shows at that path, and at the paths the trie does not tell from it, and nowhere else. */
  lemma {:induction false} LookupUpdate(n: Node, path: seq<Token>, f: Change, q: seq<Token>)
    requires path != [] && q != [] && KeepsChild(f)
    ensures SameTokens(path, q) ==> Lookup(Update(n, path, f), q) == Some(f(LookupOrFresh(n, path)))
    ensures !SameTokens(path, q) ==>
              RuleAt(Update(n, path, f), q) == RuleAt(n, q) && NextAt(Update(n, path, f), q) == NextAt(n, q)
    decreases |path|
  {
    var t, item := path[0], ItemAt(n, path[0]);
    var item' := if |path| == 1 then f(item) else item.(child := Update(item.child, path[1..], f));
    EdgePut(n, t, item', q[0]);
    SameTokensTail(path, q);
    if SameToken(t, q[0]) {
      SameEdge(n, t, q[0]);
      if |path| > 1 && |q| > 1 {
        LookupUpdate(item.child, path[1..], f, q[1..]);
        NothingInEmpty(path[1..]);
        NothingInEmpty(q[1..]);
      } else if |q| > 1 {
        NothingInEmpty(q[1..]);
      }
    }
  }

  lemma {:induction false} NothingInEmpty(path: seq<Token>)
    requires path != []
    ensures Lookup(EMPTY, path) == None
  {
  }

  lemma {:induction false} SameEdge(n: Node, t: Token, u: Token)
    requires SameToken(t, u)
    ensures Edge(n, t) == Edge(n, u)
  {
    if t.Range? && u.Range? {
      SameRange(n.ranges, t, u);
    }
  }

  lemma {:induction false} SameRange(edges: seq<RangeEdge>, t: Token, u: Token)
    requires SameToken(t, u)
    ensures FindRange(edges, t) == FindRange(edges, u)
  {
    if edges != [] {
      SameTokenEquivalence(edges[0].key, t, u);
      SameTokenEquivalence(edges[0].key, u, t);
      SameTokenEquivalence(t, u, t);
      SameRange(edges[1..], t, u);
    }
  }

  // ---------- Matching a name ----------

  type Yield<!R> = Item -> seq<R>

  function OfItem<R>(item: Option<Item>, g: Yield<R>): seq<R> {
    if item.Some? then g(item.value) else []
  }

  /** What the matched items give, in the order of the walk. */
  function MatchWith<R>(n: Node, s: string, g: Yield<R>, wide: bool): seq<R>
    decreases |s|, 2, 0
  {
    if s == "" then OfItem(n.asterisk, g)
    else
      OfItem(n.asterisk, g)
      + (if n.question.Some? then StepWith(n.question.value, s[1..], g, wide) else [])
      + RangesWith(n.ranges, s, g, wide)
      + (if s[0] in n.characters then StepWith(n.characters[s[0]], s[Stride(s, wide)..], g, wide) else [])
  }

  /** Past one edge: the item itself at the end of the name, and what lies below it. */
  function StepWith<R>(item: Item, rest: string, g: Yield<R>, wide: bool): seq<R>
    decreases |rest|, 3, 0
  {
    (if rest == "" then g(item) else []) + MatchWith(item.child, rest, g, wide)
  }

  function RangesWith<R>(edges: seq<RangeEdge>, s: string, g: Yield<R>, wide: bool): seq<R>
    requires s != ""
    decreases |s|, 1, |edges|
  {
    if edges == [] then []
    else (if Accepts(edges[0].key, s[0]) then StepWith(edges[0].item, s[1..], g, wide) else []) + RangesWith(edges[1..], s, g, wide)
  }

  // ---------- Changes that no match sees ----------

  /** Two items that no match tells apart. */
  ghost predicate Alike<R>(a: Item, b: Item, g: Yield<R>, wide: bool) {
    g(a) == g(b) && forall rest: string :: MatchWith(a.child, rest, g, wide) == MatchWith(b.child, rest, g, wide)
  }

  lemma {:induction false} AlikeSteps<R>(a: Item, b: Item, rest: string, g: Yield<R>, wide: bool)
    requires Alike(a, b, g, wide)
    ensures StepWith(a, rest, g, wide) == StepWith(b, rest, g, wide)
  {
  }

  lemma {:induction false} FreshYields<R>(rest: string, g: Yield<R>, wide: bool)
    requires g(FRESH) == []
    ensures StepWith(FRESH, rest, g, wide) == [] && MatchWith(EMPTY, rest, g, wide) == []
  {
  }

  lemma {:induction false} PutRangeKeeps<R>(edges: seq<RangeEdge>, t: Token, item: Item, s: string, g: Yield<R>, wide: bool)
    requires s != "" && g(FRESH) == []
    requires Alike(item, if FindRange(edges, t).Some? then FindRange(edges, t).value else FRESH, g, wide)
    ensures RangesWith(PutRange(edges, t, item), s, g, wide) == RangesWith(edges, s, g, wide)
    decreases |edges|
  {
    if edges == [] {
      AlikeSteps(item, FRESH, s[1..], g, wide);
      FreshYields(s[1..], g, wide);
      assert [RangeEdge(t, item)][1..] == [];
    } else if SameToken(edges[0].key, t) {
      AlikeSteps(item, edges[0].item, s[1..], g, wide);
      assert PutRange(edges, t, item)[1..] == edges[1..];
    } else {
      PutRangeKeeps(edges[1..], t, item, s, g, wide);
      assert PutRange(edges, t, item)[1..] == PutRange(edges[1..], t, item);
    }
  }

  lemma {:induction false} PutKeeps<R>(n: Node, t: Token, item: Item, s: string, g: Yield<R>, wide: bool)
    requires Alike(item, ItemAt(n, t), g, wide) && g(FRESH) == []
    ensures MatchWith(Put(n, t, item), s, g, wide) == MatchWith(n, s, g, wide)
  {
    if s != "" {
      AlikeSteps(item, ItemAt(n, t), s[1..], g, wide);
      AlikeSteps(item, ItemAt(n, t), s[Stride(s, wide)..], g, wide);
      FreshYields(s[1..], g, wide);
      FreshYields(s[Stride(s, wide)..], g, wide);
      if t.Range? {
        PutRangeKeeps(n.ranges, t, item, s, g, wide);
      }
    }
  }

  /** A yield that does not look below an item and gives nothing for a new one. */
  ghost predicate Shallow<R>(g: Yield<R>) {
    g(FRESH) == [] && forall i: Item, c: Node :: g(i.(child := c)) == g(i)
  }

  /** A change that leaves what the item at its path gives is seen by no match. */
  lemma {:induction false} UpdateKeeps<R>(n: Node, path: seq<Token>, f: Change, s: string, g: Yield<R>, wide: bool)
    requires path != [] && KeepsChild(f) && Shallow(g) && g(f(LookupOrFresh(n, path))) == g(LookupOrFresh(n, path))
    ensures MatchWith(Update(n, path, f), s, g, wide) == MatchWith(n, s, g, wide)
    decreases |path|
  {
    var item := ItemAt(n, path[0]);
    if |path| == 1 {
      PutKeeps(n, path[0], f(item), s, g, wide);
    } else {
      NothingInEmpty(path[1..]);
      assert LookupOrFresh(item.child, path[1..]) == LookupOrFresh(n, path);
      var item' := item.(child := Update(item.child, path[1..], f));
      forall rest: string
        ensures MatchWith(item'.child, rest, g, wide) == MatchWith(item.child, rest, g, wide)
      {
        UpdateKeeps(item.child, path[1..], f, rest, g, wide);
      }
      PutKeeps(n, path[0], item', s, g, wide);
    }
  }

  function RulesOf(): Yield<Rule> { (i: Item) => i.rule }

  // ---------- Tries that insertions make ----------

  type Path = seq<Token>

  /** The text between a range's brackets. */
  function Body(t: Token): string
    requires t.Range?
  {
    (if t.hasNot then "!" else "") + RansText(t.ranges)
  }

  /**
   * A token that its text is read as: a range that its brackets hold, and a literal character without a meaning of its
   * own.  Behind a literal opening bracket there is no closing one.
   */
  predicate Legible(t: Token, inBracket: bool) {
    match t
    case Char(c) => c != '*' && c != '?' && (inBracket ==> c != ']')
    case Range(_, _) => !inBracket && ']' !in Body(t) && ParseRange(Body(t)) == t
    case _ => true
  }

  predicate Opens(t: Token) { t == Char('[') }

  predicate LegiblePath(path: Path, inBracket: bool) {
    path == [] || (Legible(path[0], inBracket) && LegiblePath(path[1..], inBracket || Opens(path[0])))
  }

  predicate DistinctKeys(edges: seq<RangeEdge>) {
    && (forall i :: 0 <= i < |edges| ==> edges[i].key.Range?)
    && (forall i, j :: 0 <= i < j < |edges| ==> !SameToken(edges[i].key, edges[j].key))
  }

  /** No two ranges of a node are the same, all edges are legible, and nothing hangs below a star. */
  predicate Wf(n: Node, inBracket: bool)
    decreases n
  {
    && DistinctKeys(n.ranges)
    && (n.asterisk.Some? ==> n.asterisk.value.child == EMPTY && WfItem(n.asterisk.value, inBracket))
    && (n.question.Some? ==> WfItem(n.question.value, inBracket))
    && (forall i :: 0 <= i < |n.ranges| ==> Legible(n.ranges[i].key, inBracket) && WfItem(n.ranges[i].item, inBracket))
    && (forall c :: c in n.characters ==> Legible(Char(c), inBracket) && WfItem(n.characters[c], inBracket || c == '['))
  }

  predicate WfItem(i: Item, inBracket: bool)
    decreases i
  {
    Wf(i.child, inBracket) && (i.next.Some? ==> Wf(i.next.value, false))
  }

  lemma {:induction false} FindWf(edges: seq<RangeEdge>, t: Token, inBracket: bool)
    requires forall i :: 0 <= i < |edges| ==> WfItem(edges[i].item, inBracket)
    ensures FindRange(edges, t).Some? ==> WfItem(FindRange(edges, t).value, inBracket)
  {
    if edges != [] {
      FindWf(edges[1..], t, inBracket);
    }
  }

  lemma {:induction false} EdgeWf(n: Node, t: Token, inBracket: bool)
    requires Wf(n, inBracket)
    ensures WfItem(ItemAt(n, t), inBracket || Opens(t))
  {
    assert WfItem(FRESH, inBracket || Opens(t));
    match t
    case Char(c) =>
      if c in n.characters {
        assert WfItem(n.characters[c], inBracket || c == '[');
      }
    case Range(_, _) => FindWf(n.ranges, t, inBracket);
    case Any =>
    case Star =>
  }

  /** All edges satisfy what one of the old ones, or the new one, does. */
  lemma {:induction false} PutRangeAt(edges: seq<RangeEdge>, t: Token, item: Item, i: nat)
    requires i < |PutRange(edges, t, item)|
    ensures var e := PutRange(edges, t, item)[i]; (e.key == t || exists j :: 0 <= j < |edges| && edges[j].key == e.key)
    ensures var e := PutRange(edges, t, item)[i]; (e.item == item || exists j :: 0 <= j < |edges| && edges[j].item == e.item)
  {
    if edges != [] && i > 0 {
      if SameToken(edges[0].key, t) {
        assert PutRange(edges, t, item)[i] == edges[i];
      } else {
        PutRangeAt(edges[1..], t, item, i - 1);
        assert PutRange(edges, t, item)[i] == PutRange(edges[1..], t, item)[i - 1];
        assert forall j :: 0 <= j < |edges[1..]| ==> edges[1..][j] == edges[j + 1];
      }
    } else if edges != [] {
      assert edges[0].key == edges[0].key;
    }
  }

  lemma {:induction false} PutRangeDistinct(edges: seq<RangeEdge>, t: Token, item: Item)
    requires t.Range? && DistinctKeys(edges)
    ensures DistinctKeys(PutRange(edges, t, item))
  {
    var r := PutRange(edges, t, item);
    if edges != [] {
      if SameToken(edges[0].key, t) {
        assert forall i :: 0 < i < |r| ==> r[i] == edges[i];
      } else {
        var tail := PutRange(edges[1..], t, item);
        PutRangeDistinct(edges[1..], t, item);
        assert r == [edges[0]] + tail;
        forall i | 0 <= i < |tail|
          ensures !SameToken(edges[0].key, tail[i].key)
        {
          PutRangeAt(edges[1..], t, item, i);
          if tail[i].key != t {
            var j :| 0 <= j < |edges[1..]| && edges[1..][j].key == tail[i].key;
            assert edges[j + 1].key == tail[i].key;
          }
        }
      }
    }
  }

  lemma {:induction false} PutWf(n: Node, t: Token, item: Item, inBracket: bool)
    requires Wf(n, inBracket) && Legible(t, inBracket) && WfItem(item, inBracket || Opens(t)) && (t == Star ==> item.child == EMPTY)
    ensures Wf(Put(n, t, item), inBracket)
  {
    if t.Range? {
      var r := PutRange(n.ranges, t, item);
      PutRangeDistinct(n.ranges, t, item);
      forall i | 0 <= i < |r|
        ensures Legible(r[i].key, inBracket) && WfItem(r[i].item, inBracket)
      {
        PutRangeAt(n.ranges, t, item, i);
      }
    }
  }

  ghost predicate KeepsWf(f: Change) {
    forall i: Item, inBracket: bool :: WfItem(i, inBracket) ==> WfItem(f(i), inBracket)
  }

  /** Changes along legible paths keep the trie so. */
  lemma {:induction false} UpdateWf(n: Node, path: Path, f: Change, inBracket: bool)
    requires Wf(n, inBracket) && path != [] && KeepsWf(f) && KeepsChild(f) && LegiblePath(path, inBracket) && StarLast(path)
    ensures Wf(Update(n, path, f), inBracket)
    decreases |path|
  {
    var item := ItemAt(n, path[0]);
    EdgeWf(n, path[0], inBracket);
    if |path| > 1 {
      UpdateWf(item.child, path[1..], f, inBracket || Opens(path[0]));
    }
    PutWf(n, path[0], if |path| == 1 then f(item) else item.(child := Update(item.child, path[1..], f)), inBracket);
  }

  // ---------- Legible paths ----------

  lemma {:induction false} SameBetween(a: string, b: string)
    requires "[" + a + "]" == "[" + b + "]"
    ensures a == b
  {
    assert ("[" + a + "]")[1..|a| + 1] == a;
    assert ("[" + b + "]")[1..|b| + 1] == b;
  }

  lemma {:induction false} BodyText(t: Token)
    requires t.Range?
    ensures RangeText(t) == "[" + Body(t) + "]"
  {
  }

  lemma {:induction false} RangeLegible(body: string)
    requires ']' !in body
    ensures Legible(ParseRange(body), false)
  {
    RangeRoundTrip(body);
    BodyText(ParseRange(body));
    SameBetween(body, Body(ParseRange(body)));
  }

  lemma {:induction false} FirstLegible(p: string, inBracket: bool)
    requires p != "" && p[0] != '*' && (inBracket ==> ']' !in p)
    ensures Legible(FirstToken(p).0, inBracket)
    ensures inBracket || Opens(FirstToken(p).0) ==> ']' !in FirstToken(p).1
  {
    if p[0] == '[' && Find(p, ']').Some? {
      var k := Find(p, ']').value;
      assert forall i :: 1 <= i < k ==> p[i] == p[..k][i];
      RangeLegible(p[1..k]);
    }
  }

  /** The tokens of a pattern are legible. */
  lemma {:induction false} ParseLegible(p: string, inBracket: bool)
    requires inBracket ==> ']' !in p
    ensures LegiblePath(Parse(p).tokens, inBracket)
    decreases |p|
  {
    if p != "" && p[0] != '*' {
      var (t, rest) := FirstToken(p);
      FirstLegible(p, inBracket);
      ParseLegible(rest, inBracket || Opens(t));
      assert Parse(p).tokens[1..] == Parse(rest).tokens;
    }
  }

  lemma {:induction false} FindIn(a: string, b: string, c: char)
    requires c !in a
    ensures Find(a + [c] + b, c) == Some(|a|)
  {
    if a == "" {
      assert a + [c] + b == [c] + b;
    } else {
      assert (a + [c] + b)[1..] == a[1..] + [c] + b;
      FindIn(a[1..], b, c);
    }
  }

  lemma {:induction false} ReadsRange(body: string, rest: string)
    requires ']' !in body
    ensures var p := "[" + body + "]" + rest; Find(p, ']') == Some(|body| + 1) && p[1..|body| + 1] == body && p[|body| + 2..] == rest
  {
    FindIn("[" + body, rest, ']');
  }

  lemma {:induction false} ReadsOne(c: char, rest: string)
    requires c != '*' && c != '?' && (c == '[' ==> ']' !in rest)
    ensures FirstToken([c] + rest) == (Char(c), rest)
  {
    var p := [c] + rest;
    assert p[1..] == rest;
    if c == '[' {
      assert ']' !in p;
      var k := Find(p, ']');
    }
  }

  lemma {:induction false} ReadsToken(t: Token, rest: string, inBracket: bool)
    requires Legible(t, inBracket) && t != Star && (inBracket || Opens(t) ==> ']' !in rest)
    ensures TokenText(t) + rest != "" && (TokenText(t) + rest)[0] != '*' && FirstToken(TokenText(t) + rest) == (t, rest)
  {
    match t
    case Range(_, _) =>
      BodyText(t);
      ReadsRange(Body(t), rest);
    case Any => assert ("?" + rest)[1..] == rest;
    case Char(c) => ReadsOne(c, rest);
  }

  lemma {:induction false} OpenedText(path: Path)
    requires LegiblePath(path, true)
    ensures ']' !in Text(path)
  {
    if path != [] {
      OpenedText(path[1..]);
    }
  }

  lemma {:induction false} ParseStep(t: Token, tail: Path, text: string, rest: string)
    requires text != "" && text[0] != '*' && FirstToken(text) == (t, rest) && Parse(rest) == Good(tail)
    ensures Parse(text) == Good([t] + tail)
  {
  }

  lemma {:induction false} TokenReadsBack(t: Token, tail: Path, inBracket: bool)
    requires Legible(t, inBracket) && t != Star && LegiblePath(tail, inBracket || Opens(t)) && Parse(Text(tail)) == Good(tail)
    ensures Parse(TokenText(t) + Text(tail)) == Good([t] + tail)
  {
    if inBracket || Opens(t) {
      OpenedText(tail);
    }
    ReadsToken(t, Text(tail), inBracket);
    ParseStep(t, tail, TokenText(t) + Text(tail), Text(tail));
  }

  /** The text of a legible path is read as that path. */
  lemma {:induction false} TextReadsBack(path: Path, inBracket: bool)
    requires LegiblePath(path, inBracket) && StarLast(path)
    ensures Parse(Text(path)) == Good(path)
    decreases |path|
  {
    if path != [] {
      var t, tail := path[0], path[1..];
      if t == Star {
        assert path == [Star] && Text(tail) == "";
      } else {
        TextReadsBack(tail, inBracket || Opens(t));
        TokenReadsBack(t, tail, inBracket);
        assert path == [t] + tail;
      }
    }
  }
}
