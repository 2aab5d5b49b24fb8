/**
 * Tries of a single pattern in the table rule selector (pkg/table-rule-selector/trie_selector.go): what a walk finds in
 * one, patterns that tell two given names apart, and for a name with a rune of several bytes a pattern that matches it
 * byte by byte but is not found by the walk.
 */
module Singles {
  import opened Wrappers
  import opened Patterns
  import opened Runes
  import opened Trie
  import opened Selectors

  /** A token over which the walk steps by one byte on any name. */
  predicate Short(t: Token) { t.Char? ==> t.c as int < 0xC2 }

  predicate AllShort(path: Path) {
    forall i :: 0 <= i < |path| ==> Short(path[i])
  }

  /** The walk through a trie of one such pattern finds what is at its end exactly for the names that match it. */
  lemma {:induction false} SingleFinds<R>(path: Path, f: Change, s: string, g: Yield<R>)
    requires path != [] && AllShort(path) && KeepsChild(f) && Shallow(g)
    ensures MatchWith(Update(EMPTY, path, f), s, g, true) == if Matches(path, s) then g(f(FRESH)) else []
    decreases |path|
  {
    if |path| == 1 {
      assert path == [path[0]];
      SingleEdge(path[0], f, s, g);
    } else {
      var rest := path[1..];
      var below := FRESH.(child := Update(EMPTY, rest, f));
      assert Update(EMPTY, path, f) == Put(EMPTY, path[0], below);
      SingleStep(path[0], below, s, g);
      if path[0] != Star && s != "" && Accepts(path[0], s[0]) {
        SingleFinds(rest, f, s[1..], g);
        SingleBelow(rest, f, s[1..], g);
      }
    }
  }

  lemma {:induction false} SingleEdge<R>(t: Token, f: Change, s: string, g: Yield<R>)
    requires Short(t) && KeepsChild(f) && Shallow(g)
    ensures MatchWith(Update(EMPTY, [t], f), s, g, true) == if Matches([t], s) then g(f(FRESH)) else []
  {
    assert [t][1..] == [];
    SingleStep(t, f(FRESH), s, g);
    if t != Star && s != "" {
      FreshYields(s[1..], g, true);
    }
  }

  lemma {:induction false} SingleBelow<R>(path: Path, f: Change, rest: string, g: Yield<R>)
    requires path != [] && Shallow(g)
    ensures StepWith(FRESH.(child := Update(EMPTY, path, f)), rest, g, true) == MatchWith(Update(EMPTY, path, f), rest, g, true)
  {
    var item := FRESH.(child := Update(EMPTY, path, f));
    assert g(item) == g(FRESH) == [];
    assert [] + MatchWith(item.child, rest, g, true) == MatchWith(item.child, rest, g, true);
  }

  /** One edge from the root. */
  lemma {:induction false} SingleStep<R>(t: Token, item: Item, s: string, g: Yield<R>)
    requires Short(t)
    ensures MatchWith(Put(EMPTY, t, item), s, g, true) ==
            if t == Star then g(item) else if s != "" && Accepts(t, s[0]) then StepWith(item, s[1..], g, true) else []
  {
    var n := Put(EMPTY, t, item);
    if s != "" {
      assert MatchWith(n, s, g, true) == OfItem(n.asterisk, g) + AnyPart(n, s, g) + RangesWith(n.ranges, s, g, true) + CharPart(n, s, g);
      SingleParts(t, item, s, g);
      Alone(OfItem(n.asterisk, g), AnyPart(n, s, g), RangesWith(n.ranges, s, g, true), CharPart(n, s, g));
    }
  }

  function AnyPart<R>(n: Node, s: string, g: Yield<R>): seq<R>
    requires s != ""
  {
    if n.question.Some? then StepWith(n.question.value, s[1..], g, true) else []
  }

  function CharPart<R>(n: Node, s: string, g: Yield<R>): seq<R>
    requires s != ""
  {
    if s[0] in n.characters then StepWith(n.characters[s[0]], s[RuneWidth(s)..], g, true) else []
  }

  lemma {:induction false} Alone<R>(a: seq<R>, q: seq<R>, r: seq<R>, c: seq<R>)
    ensures q == [] && r == [] && c == [] ==> a + q + r + c == a
    ensures a == [] && r == [] && c == [] ==> a + q + r + c == q
    ensures a == [] && q == [] && c == [] ==> a + q + r + c == r
    ensures a == [] && q == [] && r == [] ==> a + q + r + c == c
  {
  }

  lemma {:induction false} SingleParts<R>(t: Token, item: Item, s: string, g: Yield<R>)
    requires s != "" && Short(t)
    ensures var n, here := Put(EMPTY, t, item), StepWith(item, s[1..], g, true);
            && OfItem(n.asterisk, g) == (if t == Star then g(item) else [])
            && AnyPart(n, s, g) == (if t == Any then here else [])
            && CharPart(n, s, g) == (if t.Char? && Accepts(t, s[0]) then here else [])
            && RangesWith(n.ranges, s, g, true) == (if t.Range? && Accepts(t, s[0]) then here else [])
  {
    var n := Put(EMPTY, t, item);
    if t.Range? {
      assert n.ranges == [RangeEdge(t, item)] && n.ranges[1..] == [];
    }
  }

  // ---------- Patterns for a given name ----------

  function Marks(n: nat): string { seq(n, i => '?') }

  function Anys(n: nat): Path { seq(n, i => Any) }

  /** Question marks, a token, and question marks again. */
  function Around(i: nat, t: Token, n: nat): Path { Anys(i) + [t] + Anys(n) }

  lemma {:induction false} OneMark(n: nat, rest: string, tokens: Path)
    requires n > 0
    ensures Marks(n) + rest == "?" + (Marks(n - 1) + rest) && ("?" + (Marks(n - 1) + rest))[1..] == Marks(n - 1) + rest
    ensures [Any] + (Anys(n - 1) + tokens) == Anys(n) + tokens
  {
  }

  lemma {:induction false} ParseMarks(n: nat, rest: string)
    requires Parse(rest).Good?
    ensures Parse(Marks(n) + rest) == Good(Anys(n) + Parse(rest).tokens)
    decreases n
  {
    if n == 0 {
      assert Marks(0) + rest == rest;
    } else {
      OneMark(n, rest, Parse(rest).tokens);
      ParseMarks(n - 1, rest);
    }
  }

  /** The text of a token among question marks. */
  ghost predicate Reads(text: string, t: Token) {
    text != "" && text[0] != '*' && forall n: nat :: FirstToken(text + Marks(n)) == (t, Marks(n))
  }

  lemma {:induction false} ParseAround(i: nat, text: string, t: Token, n: nat)
    requires Reads(text, t)
    ensures Parse(Marks(i) + (text + Marks(n))) == Good(Around(i, t, n))
  {
    ParseMarks(n, "");
    assert Marks(n) + "" == Marks(n);
    assert Anys(n) + [] == Anys(n);
    assert FirstToken(text + Marks(n)) == (t, Marks(n));
    assert Parse(text + Marks(n)) == Good([t] + Anys(n));
    ParseMarks(i, text + Marks(n));
    assert Anys(i) + ([t] + Anys(n)) == Around(i, t, n);
  }

  lemma {:induction false} AnysMatch(n: nat, s: string)
    ensures Matches(Anys(n), s) <==> |s| == n
    decreases n
  {
    if n > 0 {
      assert Anys(n)[1..] == Anys(n - 1);
      if s != "" {
        AnysMatch(n - 1, s[1..]);
      }
    }
  }

  lemma {:induction false} AroundMatch(i: nat, t: Token, n: nat, s: string)
    requires t != Star
    ensures Matches(Around(i, t, n), s) <==> |s| == i + 1 + n && Accepts(t, s[i])
    decreases i
  {
    if i == 0 {
      assert Around(i, t, n)[1..] == Anys(n);
      if s != "" {
        AnysMatch(n, s[1..]);
      }
    } else {
      assert Around(i, t, n)[1..] == Around(i - 1, t, n);
      if s != "" {
        AroundMatch(i - 1, t, n, s[1..]);
      }
    }
  }

  lemma {:induction false} FindAt(s: string, c: char, k: nat)
    requires k < |s| && s[k] == c && c !in s[..k]
    ensures Find(s, c) == Some(k)
  {
    if k > 0 {
      assert s[0] == s[..k][0] && s[1..][..k - 1] == s[..k][1..];
      FindAt(s[1..], c, k - 1);
    }
  }

  /** A character in brackets, unless the brackets would not hold it or take it for a negation. */
  lemma {:induction false} BracketReads(c: char)
    requires c != ']' && c != '!'
    ensures Reads("[" + [c] + "]", Range(false, [Ran(c, c, false)]))
  {
    var text := "[" + [c] + "]";
    forall n: nat
      ensures FirstToken(text + Marks(n)) == (Range(false, [Ran(c, c, false)]), Marks(n))
    {
      var p := text + Marks(n);
      assert p[0] == '[' && p[1] == c && p[2] == ']';
      FindAt(p, ']', 2);
      assert p[1..2] == [c] && p[3..] == Marks(n);
      assert [c][1..] == "" && RangeBody("") == [];
      assert RangeBody([c]) == [Ran(c, c, false)] + [] == [Ran(c, c, false)];
      assert ParseRange([c]) == Range(false, [Ran(c, c, false)]);
    }
  }

  lemma {:induction false} LetterReads(c: char)
    requires c != '*' && c != '?' && c != '['
    ensures Reads([c], Char(c))
  {
    forall n: nat
      ensures FirstToken([c] + Marks(n)) == (Char(c), Marks(n))
    {
      assert ([c] + Marks(n))[1..] == Marks(n);
    }
  }

  /** A token of one character that accepts one of two characters and not the other. */
  lemma {:induction false} TokenTells(c: char, d: char) returns (text: string, t: Token)
    requires c != d
    ensures Reads(text, t) && Short(t) && t != Star && Accepts(t, c) != Accepts(t, d)
  {
    var e := if c != ']' && c != '!' then c else d;
    if e != ']' && e != '!' {
      BracketReads(e);
      text, t := "[" + [e] + "]", Range(false, [Ran(e, e, false)]);
      assert [Ran(e, e, false)][0].start <= e <= [Ran(e, e, false)][0].end;
    } else {
      LetterReads('!');
      text, t := "!", Char('!');
    }
  }

  /** For two different names a pattern that matches just one of them. */
  lemma {:induction false} PatternTells(a: string, b: string) returns (p: string)
    requires a != b
    ensures p != "" && Parse(p).Good? && Parse(p).tokens != [] && AllShort(Parse(p).tokens)
    ensures Matches(Parse(p).tokens, a) != Matches(Parse(p).tokens, b)
  {
    if |a| != |b| {
      var n := if |a| > |b| then |a| else |b|;
      p := LengthTells(n);
      AnysMatch(n, a);
      AnysMatch(n, b);
    } else {
      var i :| 0 <= i < |a| && a[i] != b[i];
      var text, t := TokenTells(a[i], b[i]);
      AroundMatch(i, t, |a| - i - 1, a);
      AroundMatch(i, t, |a| - i - 1, b);
      p := AroundTells(i, text, t, |a| - i - 1);
    }
  }

  lemma {:induction false} AroundTells(i: nat, text: string, t: Token, n: nat) returns (p: string)
    requires Reads(text, t) && Short(t)
    ensures p != "" && Parse(p) == Good(Around(i, t, n)) && AllShort(Around(i, t, n))
  {
    ParseAround(i, text, t, n);
    p := Marks(i) + (text + Marks(n));
    assert forall k :: 0 <= k < |Around(i, t, n)| ==> Around(i, t, n)[k] == t || Around(i, t, n)[k] == Any;
  }

  lemma {:induction false} LengthTells(n: nat) returns (p: string)
    requires n > 0
    ensures p != "" && Parse(p) == Good(Anys(n)) && AllShort(Anys(n))
  {
    ParseMarks(n, "");
    p := Marks(n) + "";
    assert Anys(n) + [] == Anys(n);
  }

  // ---------- Rules under them ----------

  lemma {:induction false} SchemaStep(p: string, rule: Rule, path: Path)
    requires p != "" && Parse(p) == Good(path) && path != []
    ensures TrieStep(EMPTY, InsertOp(p, "", rule, Insert)) == (true, Update(EMPTY, path, SetRules([rule])))
  {
    NothingInEmpty(path);
    assert [] + [rule] == [rule];
  }

  /** The trie with one rule under a schema pattern. */
  lemma {:induction false} SchemaRule(p: string, rule: Rule, s: string, t: string)
    requires p != "" && Parse(p).Good? && Parse(p).tokens != [] && AllShort(Parse(p).tokens)
    ensures var (ok, root) := TrieStep(EMPTY, InsertOp(p, "", rule, Insert));
            ok && Lookups(root, s, t, true) == if Matches(Parse(p).tokens, s) then [rule] else []
  {
    var path := Parse(p).tokens;
    SchemaStep(p, rule, path);
    ShallowYields(t, true);
    SingleFinds(path, SetRules([rule]), s, RulesOf());
    SingleFinds(path, SetRules([rule]), s, TablesOf(t, true));
  }

  lemma {:induction false} TableStep(p: string, rule: Rule, path: Path)
    requires p != "" && Parse(p) == Good(path) && path != []
    ensures TrieStep(EMPTY, InsertOp("*", p, rule, Insert)) == (true, Update(EMPTY, [Star], SetNext(Update(EMPTY, path, SetRules([rule])))))
  {
    NothingInEmpty(path);
    NothingInEmpty([Star]);
    assert [] + [rule] == [rule];
    assert Parse("*") == Good([Star]);
  }

  /** The trie with one rule under a table pattern, for all schemas. */
  lemma {:induction false} TableRule(p: string, rule: Rule, s: string, t: string)
    requires p != "" && Parse(p).Good? && Parse(p).tokens != [] && AllShort(Parse(p).tokens)
    ensures var (ok, root) := TrieStep(EMPTY, InsertOp("*", p, rule, Insert));
            ok && Lookups(root, s, t, true) == if Matches(Parse(p).tokens, t) then [rule] else []
  {
    var path := Parse(p).tokens;
    var next := Update(EMPTY, path, SetRules([rule]));
    TableStep(p, rule, path);
    ShallowYields(t, true);
    SingleFinds(path, SetRules([rule]), t, RulesOf());
    SingleFinds([Star], SetNext(next), s, RulesOf());
    SingleFinds([Star], SetNext(next), s, TablesOf(t, true));
    assert [] + MatchWith(next, t, RulesOf(), true) == MatchWith(next, t, RulesOf(), true);
  }

  // ---------- Runes of several bytes ----------

  lemma {:induction false} WideRune(s: string) returns (i: nat)
    requires !Narrow(s)
    ensures i < |s| && RuneWidth(s[i..]) > 1
  {
    if RuneWidth(s) > 1 {
      assert s[0..] == s;
      i := 0;
    } else {
      var k := WideRune(s[1..]);
      assert s[1..][k..] == s[k + 1..];
      i := k + 1;
    }
  }

  /** The walk steps over a rune, and too little of the name is left for the question marks. */
  lemma {:induction false} WideEdge<R>(c: char, n: nat, f: Change, s: string, g: Yield<R>)
    requires KeepsChild(f) && Shallow(g) && s != "" && s[0] == c && RuneWidth(s) > 1 && |s| == 1 + n
    ensures MatchWith(Update(EMPTY, [Char(c)] + Anys(n), f), s, g, true) == []
  {
    var path, rest := [Char(c)] + Anys(n), s[RuneWidth(s)..];
    var below := FRESH.(child := Update(EMPTY, Anys(n), f));
    assert path[1..] == Anys(n);
    var root := Put(EMPTY, Char(c), below);
    assert Update(EMPTY, path, f) == root;
    SingleFinds(Anys(n), f, rest, g);
    AnysMatch(n, rest);
    SingleBelow(Anys(n), f, rest, g);
    assert CharPart(root, s, g) == [];
    assert MatchWith(root, s, g, true) == OfItem(root.asterisk, g) + AnyPart(root, s, g) + RangesWith(root.ranges, s, g, true) + CharPart(root, s, g);
  }

  lemma {:induction false} WideMisses<R>(i: nat, c: char, n: nat, f: Change, s: string, g: Yield<R>)
    requires KeepsChild(f) && Shallow(g) && |s| == i + 1 + n && s[i] == c && RuneWidth(s[i..]) > 1
    ensures MatchWith(Update(EMPTY, Around(i, Char(c), n), f), s, g, true) == []
    decreases i
  {
    if i == 0 {
      assert s[0..] == s && Around(0, Char(c), n) == [Char(c)] + Anys(n);
      WideEdge(c, n, f, s, g);
    } else {
      assert s[1..][i - 1..] == s[i..];
      WideMisses(i - 1, c, n, f, s[1..], g);
      BelowMark(i, c, n, f, s, g);
    }
  }

  lemma {:induction false} BelowMark<R>(i: nat, c: char, n: nat, f: Change, s: string, g: Yield<R>)
    requires Shallow(g) && s != "" && i > 0
    ensures MatchWith(Update(EMPTY, Around(i, Char(c), n), f), s, g, true) ==
            MatchWith(Update(EMPTY, Around(i - 1, Char(c), n), f), s[1..], g, true)
  {
    var rest := Around(i - 1, Char(c), n);
    assert Around(i, Char(c), n)[1..] == rest;
    var below := FRESH.(child := Update(EMPTY, rest, f));
    assert Update(EMPTY, Around(i, Char(c), n), f) == Put(EMPTY, Any, below);
    SingleStep(Any, below, s, g);
    SingleBelow(rest, f, s[1..], g);
  }

  /** For a name with such a rune: a pattern that matches it byte by byte, but whose rules the walk does not find. */
  lemma {:induction false} WidePattern(s: string) returns (p: string, path: Path)
    requires !Narrow(s)
    ensures p != "" && Parse(p) == Good(path) && path != [] && Matches(path, s)
    ensures forall rules: seq<Rule> :: MatchWith(Update(EMPTY, path, SetRules(rules)), s, RulesOf(), true) == []
  {
    var i := WideRune(s);
    var c, n := s[i], |s| - i - 1;
    LetterReads(c);
    ParseAround(i, [c], Char(c), n);
    AroundMatch(i, Char(c), n, s);
    p, path := Marks(i) + ([c] + Marks(n)), Around(i, Char(c), n);
    forall rules: seq<Rule>
      ensures MatchWith(Update(EMPTY, path, SetRules(rules)), s, RulesOf(), true) == []
    {
      ShallowYields("", true);
      WideMisses(i, c, n, SetRules(rules), s, RulesOf());
    }
  }
}
