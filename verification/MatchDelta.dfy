/**
 * What a change at one path of a trie does to a match: it exchanges what the item at that path gives, when the path
 * matches the name, and nothing else (pkg/table-rule-selector/trie_selector.go:298-375 against 582-628).  Rules are counted
 * as a multiset, edge by edge.
 */
module MatchDeltas {
  import opened Wrappers
  import opened Patterns
  import opened Runes
  import opened Trie

  /** The names that a path means to the walk: past a literal character it goes on behind the rune, or behind the byte. */
  predicate Hits(ts: Path, s: string, wide: bool)
    decreases |ts|
  {
    if ts == [] then s == ""
    else if ts[0] == Star then |ts| == 1
    else s != "" && Accepts(ts[0], s[0]) && Hits(ts[1..], s[if ts[0].Char? then Stride(s, wide) else 1..], wide)
  }

  lemma {:induction false} SameHits(a: Path, b: Path, s: string, wide: bool)
    requires SameTokens(a, b)
    ensures Hits(a, s, wide) <==> Hits(b, s, wide)
    decreases |a|
  {
    if a != [] && a[0] != Star && s != "" {
      if a[0].Range? && a[0] != b[0] {
        EqualAccepts(a[0], b[0], s[0]);
      }
      SameHits(a[1..], b[1..], s[if a[0].Char? then Stride(s, wide) else 1..], wide);
    }
  }

  /** By bytes it is the flat meaning of the pattern, and on names of narrow runes it is so in either case. */
  lemma {:induction false} HitsIsMatches(ts: Path, s: string, wide: bool)
    requires wide ==> Narrow(s)
    ensures Hits(ts, s, wide) <==> Matches(ts, s)
    decreases |ts|
  {
    if ts != [] && ts[0] != Star && s != "" {
      HitsIsMatches(ts[1..], s[1..], wide);
    }
  }

  /** What counts, when it counts. */
  function Bag<R>(counts: bool, x: seq<R>): multiset<R> {
    if counts then multiset(x) else multiset{}
  }

  /** What the edge for a token adds to a match, when it leads to an item. */
  function Share<R>(t: Token, item: Item, s: string, g: Yield<R>, wide: bool): seq<R> {
    match t
    case Star => g(item)
    case Any => if s != "" then StepWith(item, s[1..], g, wide) else []
    case Char(c) => if s != "" && s[0] == c then StepWith(item, s[Stride(s, wide)..], g, wide) else []
    case Range(_, _) => if s != "" && Accepts(t, s[0]) then StepWith(item, s[1..], g, wide) else []
  }

  lemma {:induction false} FreshShare<R>(t: Token, s: string, g: Yield<R>, wide: bool)
    requires g(FRESH) == []
    ensures Share(t, FRESH, s, g, wide) == []
  {
    if s != "" {
      FreshYields(s[1..], g, wide);
      FreshYields(s[Stride(s, wide)..], g, wide);
    }
  }

  lemma {:induction false} SameShare<R>(t: Token, u: Token, item: Item, s: string, g: Yield<R>, wide: bool)
    requires SameToken(t, u)
    ensures Share(t, item, s, g, wide) == Share(u, item, s, g, wide)
  {
    if t.Range? && s != "" && t != u {
      EqualAccepts(t, u, s[0]);
    }
  }

  /** An exchange of `x` for `y` in a bag, seen through a common remainder. */
  lemma {:induction false} Exchange<R>(before: seq<R>, after: seq<R>, rest: seq<R>, rest': seq<R>, x: seq<R>, y: seq<R>)
    requires before == x + rest && after == y + rest' && multiset(rest) == multiset(rest')
    ensures multiset(after) + multiset(x) == multiset(before) + multiset(y)
  {
  }

  lemma {:induction false} ExchangeBehind<R>(before: seq<R>, after: seq<R>, own: seq<R>, rest: seq<R>, rest': seq<R>,
                                             x: multiset<R>, y: multiset<R>)
    requires before == own + rest && after == own + rest' && multiset(rest') + x == multiset(rest) + y
    ensures multiset(after) + x == multiset(before) + y
  {
    calc {
      multiset(after) + x;
      multiset(own) + (multiset(rest') + x);
      multiset(own) + (multiset(rest) + y);
      multiset(before) + y;
    }
  }

  function ItemOrFresh(item: Option<Item>): Item {
    if item.Some? then item.value else FRESH
  }

  lemma {:induction false} RangesDelta<R>(edges: seq<RangeEdge>, t: Token, item: Item, s: string, g: Yield<R>, wide: bool)
    requires t.Range? && s != "" && g(FRESH) == []
    ensures multiset(RangesWith(PutRange(edges, t, item), s, g, wide))
            + multiset(Share(t, ItemOrFresh(FindRange(edges, t)), s, g, wide))
            == multiset(RangesWith(edges, s, g, wide)) + multiset(Share(t, item, s, g, wide))
    decreases |edges|
  {
    var after := PutRange(edges, t, item);
    if edges == [] {
      FreshShare(t, s, g, wide);
      assert after[1..] == [];
      assert Share(t, item, s, g, wide) + [] == Share(t, item, s, g, wide);
    } else if SameToken(edges[0].key, t) {
      assert after[1..] == edges[1..];
      var rest := RangesWith(edges[1..], s, g, wide);
      SameShare(edges[0].key, t, item, s, g, wide);
      SameShare(edges[0].key, t, edges[0].item, s, g, wide);
      Exchange(RangesWith(edges, s, g, wide), RangesWith(after, s, g, wide), rest, rest,
               Share(t, edges[0].item, s, g, wide), Share(t, item, s, g, wide));
    } else {
      assert after[1..] == PutRange(edges[1..], t, item);
      RangesDelta(edges[1..], t, item, s, g, wide);
      ExchangeBehind(RangesWith(edges, s, g, wide), RangesWith(after, s, g, wide),
                     if Accepts(edges[0].key, s[0]) then StepWith(edges[0].item, s[1..], g, wide) else [],
                     RangesWith(edges[1..], s, g, wide), RangesWith(after[1..], s, g, wide),
                     multiset(Share(t, ItemOrFresh(FindRange(edges, t)), s, g, wide)), multiset(Share(t, item, s, g, wide)));
    }
  }

  /** The shares of the edges other than the ranges. */
  function AnyShare<R>(n: Node, s: string, g: Yield<R>, wide: bool): seq<R>
    requires s != ""
  {
    if n.question.Some? then StepWith(n.question.value, s[1..], g, wide) else []
  }

  function CharShare<R>(n: Node, s: string, g: Yield<R>, wide: bool): seq<R>
    requires s != ""
  {
    if s[0] in n.characters then StepWith(n.characters[s[0]], s[Stride(s, wide)..], g, wide) else []
  }

  ghost predicate Changed<R>(part: seq<R>, part': seq<R>, x: multiset<R>, y: multiset<R>) {
    multiset(part') + x == multiset(part) + y
  }

  lemma {:induction false} CommonBag<R>(m: multiset<R>, m': multiset<R>, rest: multiset<R>, x: multiset<R>, y: multiset<R>)
    requires m' + x == m + y
    ensures m' + rest + x == m + rest + y
  {
    assert m' + rest + x == m' + x + rest;
  }

  lemma {:induction false} FourBags<R>(a: seq<R>, q: seq<R>, r: seq<R>, c: seq<R>)
    ensures multiset(a + q + r + c) == multiset(a) + multiset(q) + multiset(r) + multiset(c)
  {
  }

  /** The sum of four parts is any one of them and the rest. */
  lemma {:induction false} Pick<R>(a: multiset<R>, q: multiset<R>, r: multiset<R>, c: multiset<R>)
    ensures a + q + r + c == a + (q + r + c) == q + (a + r + c) == r + (a + q + c) == c + (a + q + r)
  {
  }

  lemma {:induction false} OnePart<R>(part: seq<R>, part': seq<R>, rest: multiset<R>, before: seq<R>, after: seq<R>, x: multiset<R>, y: multiset<R>)
    requires Changed(part, part', x, y) && multiset(before) == multiset(part) + rest && multiset(after) == multiset(part') + rest
    ensures Changed(before, after, x, y)
  {
    CommonBag(multiset(part), multiset(part'), rest, x, y);
  }

  lemma {:induction false} PartsOf<R>(a: seq<R>, q: seq<R>, r: seq<R>, c: seq<R>)
    ensures var A, Q, R, C := multiset(a), multiset(q), multiset(r), multiset(c);
            multiset(a + q + r + c) == A + (Q + R + C) == Q + (A + R + C) == R + (A + Q + C) == C + (A + Q + R)
  {
    FourBags(a, q, r, c);
    Pick(multiset(a), multiset(q), multiset(r), multiset(c));
  }

  lemma {:induction false} FirstChanged<R>(a: seq<R>, a': seq<R>, q: seq<R>, r: seq<R>, c: seq<R>, x: multiset<R>, y: multiset<R>)
    requires Changed(a, a', x, y)
    ensures Changed(a + q + r + c, a' + q + r + c, x, y)
  {
    PartsOf(a, q, r, c);
    PartsOf(a', q, r, c);
    OnePart(a, a', multiset(q) + multiset(r) + multiset(c), a + q + r + c, a' + q + r + c, x, y);
  }

  lemma {:induction false} SecondChanged<R>(a: seq<R>, q: seq<R>, q': seq<R>, r: seq<R>, c: seq<R>, x: multiset<R>, y: multiset<R>)
    requires Changed(q, q', x, y)
    ensures Changed(a + q + r + c, a + q' + r + c, x, y)
  {
    PartsOf(a, q, r, c);
    PartsOf(a, q', r, c);
    OnePart(q, q', multiset(a) + multiset(r) + multiset(c), a + q + r + c, a + q' + r + c, x, y);
  }

  lemma {:induction false} ThirdChanged<R>(a: seq<R>, q: seq<R>, r: seq<R>, r': seq<R>, c: seq<R>, x: multiset<R>, y: multiset<R>)
    requires Changed(r, r', x, y)
    ensures Changed(a + q + r + c, a + q + r' + c, x, y)
  {
    PartsOf(a, q, r, c);
    PartsOf(a, q, r', c);
    OnePart(r, r', multiset(a) + multiset(q) + multiset(c), a + q + r + c, a + q + r' + c, x, y);
  }

  lemma {:induction false} FourthChanged<R>(a: seq<R>, q: seq<R>, r: seq<R>, c: seq<R>, c': seq<R>, x: multiset<R>, y: multiset<R>)
    requires Changed(c, c', x, y)
    ensures Changed(a + q + r + c, a + q + r + c', x, y)
  {
    PartsOf(a, q, r, c);
    PartsOf(a, q, r, c');
    OnePart(c, c', multiset(a) + multiset(q) + multiset(r), a + q + r + c, a + q + r + c', x, y);
  }

  lemma {:induction false} FourParts<R>(n: Node, s: string, g: Yield<R>, wide: bool)
    requires s != ""
    ensures MatchWith(n, s, g, wide) == OfItem(n.asterisk, g) + AnyShare(n, s, g, wide) + RangesWith(n.ranges, s, g, wide) + CharShare(n, s, g, wide)
  {
  }

  lemma {:induction false} StarDelta<R>(n: Node, item: Item, s: string, g: Yield<R>, wide: bool)
    requires s != "" && g(FRESH) == []
    ensures Changed(MatchWith(n, s, g, wide), MatchWith(Put(n, Star, item), s, g, wide), multiset(g(ItemAt(n, Star))), multiset(g(item)))
  {
    FourParts(n, s, g, wide);
    FourParts(Put(n, Star, item), s, g, wide);
    FirstChanged(OfItem(n.asterisk, g), g(item), AnyShare(n, s, g, wide), RangesWith(n.ranges, s, g, wide), CharShare(n, s, g, wide),
                 multiset(g(ItemAt(n, Star))), multiset(g(item)));
  }

  lemma {:induction false} AnyDelta<R>(n: Node, item: Item, s: string, g: Yield<R>, wide: bool, x: multiset<R>)
    requires s != "" && x == multiset(AnyShare(n, s, g, wide))
    ensures Changed(MatchWith(n, s, g, wide), MatchWith(Put(n, Any, item), s, g, wide), x, multiset(StepWith(item, s[1..], g, wide)))
  {
    FourParts(n, s, g, wide);
    FourParts(Put(n, Any, item), s, g, wide);
    SecondChanged(OfItem(n.asterisk, g), AnyShare(n, s, g, wide), StepWith(item, s[1..], g, wide), RangesWith(n.ranges, s, g, wide),
                  CharShare(n, s, g, wide), x, multiset(StepWith(item, s[1..], g, wide)));
  }

  lemma {:induction false} RangeDelta<R>(n: Node, t: Token, item: Item, s: string, g: Yield<R>, wide: bool, x: multiset<R>, y: multiset<R>)
    requires s != "" && t.Range? && Changed(RangesWith(n.ranges, s, g, wide), RangesWith(PutRange(n.ranges, t, item), s, g, wide), x, y)
    ensures Changed(MatchWith(n, s, g, wide), MatchWith(Put(n, t, item), s, g, wide), x, y)
  {
    FourParts(n, s, g, wide);
    FourParts(Put(n, t, item), s, g, wide);
    ThirdChanged(OfItem(n.asterisk, g), AnyShare(n, s, g, wide), RangesWith(n.ranges, s, g, wide),
                 RangesWith(PutRange(n.ranges, t, item), s, g, wide), CharShare(n, s, g, wide), x, y);
  }

  lemma {:induction false} CharDelta<R>(n: Node, c: char, item: Item, s: string, g: Yield<R>, wide: bool, x: multiset<R>, y: multiset<R>)
    requires s != "" && Changed(CharShare(n, s, g, wide), CharShare(Put(n, Char(c), item), s, g, wide), x, y)
    ensures Changed(MatchWith(n, s, g, wide), MatchWith(Put(n, Char(c), item), s, g, wide), x, y)
  {
    FourParts(n, s, g, wide);
    FourParts(Put(n, Char(c), item), s, g, wide);
    FourthChanged(OfItem(n.asterisk, g), AnyShare(n, s, g, wide), RangesWith(n.ranges, s, g, wide), CharShare(n, s, g, wide),
                  CharShare(Put(n, Char(c), item), s, g, wide), x, y);
  }

  /** Putting an item at an edge exchanges the shares of the two items. */
  lemma {:induction false} PutDelta<R>(n: Node, t: Token, item: Item, s: string, g: Yield<R>, wide: bool)
    requires g(FRESH) == []
    ensures multiset(MatchWith(Put(n, t, item), s, g, wide)) + multiset(Share(t, ItemAt(n, t), s, g, wide))
            == multiset(MatchWith(n, s, g, wide)) + multiset(Share(t, item, s, g, wide))
  {
    FreshShare(t, s, g, wide);
    if s != "" {
      match t
      case Star => StarDelta(n, item, s, g, wide);
      case Any => AnyDelta(n, item, s, g, wide, multiset(Share(t, ItemAt(n, t), s, g, wide)));
      case Range(_, _) =>
        RangesDelta(n.ranges, t, item, s, g, wide);
        RangeDelta(n, t, item, s, g, wide, multiset(Share(t, ItemAt(n, t), s, g, wide)), multiset(Share(t, item, s, g, wide)));
      case Char(c) =>
        CharDelta(n, c, item, s, g, wide, multiset(Share(t, ItemAt(n, t), s, g, wide)), multiset(Share(t, item, s, g, wide)));
    }
  }

  function Onward(item: Item, path: Path, f: Change): Item {
    if path == [] then f(item) else item.(child := Update(item.child, path, f))
  }

  /** The item that a change reaches below an item. */
  function Target(item: Item, path: Path): Item {
    if path == [] then item else LookupOrFresh(item.child, path)
  }

  /**
   * A change at a path exchanges what the item there gives, before and after, in the match of a name that the path
   * matches; it does nothing to any other match.
   */
  lemma {:induction false} UpdateDelta<R>(n: Node, path: Path, f: Change, s: string, g: Yield<R>, wide: bool)
    requires path != [] && KeepsChild(f) && Shallow(g)
    ensures multiset(MatchWith(Update(n, path, f), s, g, wide)) + Bag(Hits(path, s, wide), g(LookupOrFresh(n, path)))
            == multiset(MatchWith(n, s, g, wide)) + Bag(Hits(path, s, wide), g(f(LookupOrFresh(n, path))))
    decreases |path|, 1
  {
    var t, item := path[0], ItemAt(n, path[0]);
    var item' := Onward(item, path[1..], f);
    if |path| > 1 {
      NothingInEmpty(path[1..]);
    }
    assert Target(item, path[1..]) == LookupOrFresh(n, path);
    assert Update(n, path, f) == Put(n, t, item');
    PutDelta(n, t, item', s, g, wide);
    ShareDelta(t, item, path, f, s, g, wide);
    Chain4(multiset(MatchWith(Put(n, t, item'), s, g, wide)), multiset(MatchWith(n, s, g, wide)),
           multiset(Share(t, item, s, g, wide)), multiset(Share(t, item', s, g, wide)),
           Bag(Hits(path, s, wide), g(Target(item, path[1..]))), Bag(Hits(path, s, wide), g(f(Target(item, path[1..])))));
  }

  lemma {:induction false} Chain4<R>(m': multiset<R>, m: multiset<R>, x: multiset<R>, x': multiset<R>, b: multiset<R>, b': multiset<R>)
    requires m' + x == m + x' && x' + b == x + b'
    ensures m' + b == m + b'
  {
    forall r: R
      ensures (m' + b)[r] == (m + b')[r]
    {
      assert (m' + x)[r] == (m + x')[r] && (x' + b)[r] == (x + b')[r];
    }
  }

  lemma {:induction false} ShareDelta<R>(t: Token, item: Item, path: Path, f: Change, s: string, g: Yield<R>, wide: bool)
    requires path != [] && t == path[0] && KeepsChild(f) && Shallow(g)
    ensures multiset(Share(t, Onward(item, path[1..], f), s, g, wide)) + Bag(Hits(path, s, wide), g(Target(item, path[1..])))
            == multiset(Share(t, item, s, g, wide)) + Bag(Hits(path, s, wide), g(f(Target(item, path[1..]))))
    decreases |path|, 0
  {
    if t != Star && s != "" && Accepts(t, s[0]) {
      StepDelta(item, path[1..], f, s[if t.Char? then Stride(s, wide) else 1..], g, wide);
    }
  }

  lemma {:induction false} StepDelta<R>(item: Item, path: Path, f: Change, rest: string, g: Yield<R>, wide: bool)
    requires KeepsChild(f) && Shallow(g)
    ensures multiset(StepWith(Onward(item, path, f), rest, g, wide)) + Bag(Hits(path, rest, wide), g(Target(item, path)))
            == multiset(StepWith(item, rest, g, wide)) + Bag(Hits(path, rest, wide), g(f(Target(item, path))))
    decreases |path|, 2
  {
    var below := MatchWith(item.child, rest, g, wide);
    if path == [] {
      if rest == "" {
        Exchange(g(item) + below, g(f(item)) + below, below, below, g(item), g(f(item)));
      }
    } else {
      UpdateDelta(item.child, path, f, rest, g, wide);
      ExchangeBehind(StepWith(item, rest, g, wide), StepWith(Onward(item, path, f), rest, g, wide),
                     if rest == "" then g(item) else [], below, MatchWith(Update(item.child, path, f), rest, g, wide),
                     Bag(Hits(path, rest, wide), g(Target(item, path))), Bag(Hits(path, rest, wide), g(f(Target(item, path)))));
    }
  }
}
