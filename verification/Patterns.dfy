/**
 * Patterns of the table rule selector (pkg/table-rule-selector/trie_selector.go): literal characters, `?`, ranges in
 * brackets, and `*` at the end.  Characters stand for bytes.  A pattern is read into tokens, printed back from them, and
 * means a set of names; two ranges that cover each other are the same edge of the trie.
 */
module Patterns {
  import opened Sequences
  import opened Wrappers

  datatype Ran = Ran(start: char, end: char, hasBetween: bool)

  datatype Token = Char(c: char) | Any | Range(hasNot: bool, ranges: seq<Ran>) | Star

  // ---------- Ranges ----------

  predicate InRanges(ranges: seq<Ran>, c: char) {
    exists i :: 0 <= i < |ranges| && ranges[i].start <= c <= ranges[i].end
  }

  predicate Within(r: Ran, ranges: seq<Ran>) {
    exists i :: 0 <= i < |ranges| && ranges[i].start <= r.start && r.end <= ranges[i].end
  }

  /** Every range lies within one of the other item's, which has the same sense. */
  predicate RangeMatch(a: Token, b: Token)
    requires a.Range? && b.Range?
  {
    a.hasNot == b.hasNot && forall i :: 0 <= i < |a.ranges| ==> Within(a.ranges[i], b.ranges)
  }

  predicate Equal(a: Token, b: Token)
    requires a.Range? && b.Range?
  {
    RangeMatch(a, b) && RangeMatch(b, a)
  }

  /** Whether a token accepts a character. */
  predicate Accepts(t: Token, c: char) {
    match t
    case Char(x) => x == c
    case Any => true
    case Range(hasNot, ranges) => InRanges(ranges, c) != hasNot
    case Star => false
  }

  /** The loop over the ranges. */
  method MatchChar(t: Token, c: char) returns (r: bool)
    requires t.Range?
    ensures r == Accepts(t, c)
  {
    for i := 0 to |t.ranges|
      invariant forall k :: 0 <= k < i ==> !(t.ranges[k].start <= c <= t.ranges[k].end)
    {
      if t.ranges[i].start <= c <= t.ranges[i].end {
        return !t.hasNot;
      }
    }
    return t.hasNot;
  }

  lemma {:induction false} RangeMatchCovers(a: Token, b: Token, c: char)
    requires a.Range? && b.Range? && RangeMatch(a, b) && InRanges(a.ranges, c)
    ensures InRanges(b.ranges, c)
  {
    var i :| 0 <= i < |a.ranges| && a.ranges[i].start <= c <= a.ranges[i].end;
    assert Within(a.ranges[i], b.ranges);
  }

  /** Items that the trie merges accept the same characters. */
  lemma {:induction false} EqualAccepts(a: Token, b: Token, c: char)
    requires a.Range? && b.Range? && Equal(a, b)
    ensures Accepts(a, c) <==> Accepts(b, c)
  {
    if InRanges(a.ranges, c) {
      RangeMatchCovers(a, b, c);
    }
    if InRanges(b.ranges, c) {
      RangeMatchCovers(b, a, c);
    }
  }

  lemma {:induction false} RangeMatchTransitive(a: Token, b: Token, c: Token)
    requires a.Range? && b.Range? && c.Range? && RangeMatch(a, b) && RangeMatch(b, c)
    ensures RangeMatch(a, c)
  {
    forall i | 0 <= i < |a.ranges|
      ensures Within(a.ranges[i], c.ranges)
    {
      var j :| 0 <= j < |b.ranges| && b.ranges[j].start <= a.ranges[i].start && a.ranges[i].end <= b.ranges[j].end;
      assert Within(b.ranges[j], c.ranges);
    }
  }

  /** The same edge of the trie. */
  predicate SameToken(a: Token, b: Token) {
    a == b || (a.Range? && b.Range? && Equal(a, b))
  }

  lemma {:induction false} SameTokenEquivalence(a: Token, b: Token, c: Token)
    ensures SameToken(a, a)
    ensures SameToken(a, b) ==> SameToken(b, a)
    ensures SameToken(a, b) && SameToken(b, c) ==> SameToken(a, c)
  {
    if a.Range? && b.Range? && c.Range? && SameToken(a, b) && SameToken(b, c) {
      RangeSelf(a);
      RangeSelf(b);
      RangeSelf(c);
      RangeMatchTransitive(a, b, c);
      RangeMatchTransitive(c, b, a);
    }
  }

  lemma {:induction false} RangeSelf(a: Token)
    requires a.Range?
    ensures Equal(a, a)
  {
    forall i | 0 <= i < |a.ranges|
      ensures Within(a.ranges[i], a.ranges)
    {
    }
  }

  // ---------- Reading a range ----------

  /** The ranges of the text between the brackets; a dash counts only between two characters. */
  function RangeBody(s: string): seq<Ran> {
    if s == "" then []
    else if |s| > 2 && s[1] == '-' then [Ran(s[0], s[2], true)] + RangeBody(s[3..])
    else [Ran(s[0], s[0], false)] + RangeBody(s[1..])
  }

  /** The text between the brackets as an item; a lone exclamation mark is the character itself. */
  function ParseRange(body: string): (r: Token)
    ensures r.Range?
  {
    var hasNot := body != "" && body[0] == '!';
    var ranges := RangeBody(if hasNot then body[1..] else body);
    if ranges == [] && hasNot then Range(false, [Ran('!', '!', false)]) else Range(hasNot, ranges)
  }

  lemma {:induction false} InFirst(first: Ran, rest: seq<Ran>, c: char)
    ensures InRanges([first] + rest, c) <==> first.start <= c <= first.end || InRanges(rest, c)
  {
    var all := [first] + rest;
    if i :| 0 <= i < |rest| && rest[i].start <= c <= rest[i].end {
      assert all[i + 1] == rest[i];
    }
    if i :| 0 <= i < |all| && all[i].start <= c <= all[i].end && i > 0 {
      assert rest[i - 1] == all[i];
    }
    assert all[0] == first;
  }

  /** The characters that a text between brackets lists. */
  predicate Listed(body: string, c: char) {
    InRanges(RangeBody(body), c)
  }

  /** Two characters with a dash between them list those from the one to the other; any other character lists itself. */
  lemma {:induction false} ListedFirst(a: char, b: char, rest: string, c: char)
    ensures !Listed("", c)
    ensures Listed([a] + "-" + [b] + rest, c) <==> a <= c <= b || Listed(rest, c)
    ensures !(|rest| > 1 && rest[0] == '-') ==> (Listed([a] + rest, c) <==> c == a || Listed(rest, c))
  {
    var between, one := [a] + "-" + [b] + rest, [a] + rest;
    assert between[3..] == rest && one[1..] == rest;
    InFirst(Ran(a, b, true), RangeBody(rest), c);
    InFirst(Ran(a, a, false), RangeBody(rest), c);
  }

  /** An item accepts what it lists, or behind an exclamation mark the other characters; a lone one is that character. */
  lemma {:induction false} ItemAccepts(body: string, c: char)
    ensures body == "" || body[0] != '!' ==> (Accepts(ParseRange(body), c) <==> Listed(body, c))
    ensures body != "" ==> (Accepts(ParseRange("!" + body), c) <==> !Listed(body, c))
    ensures Accepts(ParseRange("!"), c) <==> c == '!'
  {
    assert ("!" + body)[1..] == body && "!"[1..] == "";
    InFirst(Ran('!', '!', false), [], c);
    assert ParseRange("!") == Range(false, [Ran('!', '!', false)] + []);
  }

  function Find(s: string, c: char): (r: Option<nat>)
    ensures r.Some? ==> r.value < |s| && s[r.value] == c && c !in s[..r.value]
    ensures r.None? ==> c !in s
  {
    if s == "" then None
    else if s[0] == c then Some(0)
    else match Find(s[1..], c)
      case None => None
      case Some(i) => Some(i + 1)
  }

  /** Reads the range a pattern starts with: the item and the position of its closing bracket, if there is one. */
  method GetRangeItem(pattern: string) returns (item: Token, nextI: Option<nat>)
    requires pattern != "" && pattern[0] == '['
    ensures nextI == Find(pattern, ']')
    ensures nextI.Some? ==> nextI.value > 0 && item == ParseRange(pattern[1..nextI.value])
  {
    item := Any;
    nextI := Find(pattern, ']');
    if nextI.None? {
      return;
    }
    var end := nextI.value;
    var startI, hasNot := 1, false;
    if pattern[startI] == '!' {
      startI := startI + 1;
      hasNot := true;
    }
    ghost var body := pattern[startI..end];
    var ranges: seq<Ran> := [];
    var i := startI;
    while i < end
      invariant startI <= i <= end
      invariant ranges + RangeBody(pattern[i..end]) == RangeBody(body)
    {
      var s := pattern[i..end];
      if pattern[i + 1] == '-' && i + 2 < end {
        assert s[3..] == pattern[i + 3..end];
        Associate(ranges, [Ran(pattern[i], pattern[i + 2], true)], RangeBody(s[3..]));
        ranges := ranges + [Ran(pattern[i], pattern[i + 2], true)];
        i := i + 3;
      } else {
        assert s[1..] == pattern[i + 1..end];
        Associate(ranges, [Ran(pattern[i], pattern[i], false)], RangeBody(s[1..]));
        ranges := ranges + [Ran(pattern[i], pattern[i], false)];
        i := i + 1;
      }
    }
    assert hasNot ==> end > 1 && pattern[1..end][1..] == body;
    item := if |ranges| == 0 && hasNot then Range(false, [Ran('!', '!', false)]) else Range(hasNot, ranges);
  }

  // ---------- Printing a range ----------

  function RanText(r: Ran): string {
    if r.hasBetween then [r.start] + "-" + [r.end] else [r.start]
  }

  function RansText(ranges: seq<Ran>): string {
    if ranges == [] then "" else RanText(ranges[0]) + RansText(ranges[1..])
  }

  function RangeText(r: Token): string
    requires r.Range?
  {
    "[" + (if r.hasNot then "!" else "") + RansText(r.ranges) + "]"
  }

  lemma {:induction false} BodyRoundTrip(s: string)
    ensures RansText(RangeBody(s)) == s
  {
    if s != "" {
      if |s| > 2 && s[1] == '-' {
        BodyRoundTrip(s[3..]);
        assert s == [s[0]] + "-" + [s[2]] + s[3..];
      } else {
        BodyRoundTrip(s[1..]);
        assert s == [s[0]] + s[1..];
      }
    }
  }

  /** Printing a range that was read reproduces its text. */
  lemma {:induction false} RangeRoundTrip(body: string)
    ensures RangeText(ParseRange(body)) == "[" + body + "]"
  {
    var hasNot := body != "" && body[0] == '!';
    var rest := if hasNot then body[1..] else body;
    BodyRoundTrip(rest);
    if hasNot {
      assert body == "!" + rest;
      if RangeBody(rest) == [] {
        assert rest == "";
        assert RansText([Ran('!', '!', false)]) == "!" by {
          assert [Ran('!', '!', false)][1..] == [];
        }
      }
    }
  }

  // ---------- Whole patterns ----------

  /** A pattern as tokens; a star that is not last makes it bad, and then only the tokens up to that star were read. */
  datatype Parsed = Good(tokens: seq<Token>) | Bad(tokens: seq<Token>)

  /** The first token of a pattern and the text behind it. */
  function FirstToken(p: string): (r: (Token, string))
    requires p != "" && p[0] != '*'
    ensures |r.1| < |p| && r.0 != Star
  {
    if p[0] == '?' then (Any, p[1..])
    else if p[0] == '[' then
      match Find(p, ']')
      case None => (Char('['), p[1..])
      case Some(k) => (ParseRange(p[1..k]), p[k + 1..])
    else (Char(p[0]), p[1..])
  }

  function Parse(p: string): Parsed
    decreases |p|
  {
    if p == "" then Good([])
    else if p[0] == '*' then (if |p| == 1 then Good([Star]) else Bad([Star]))
    else
      var (t, rest) := FirstToken(p);
      match Parse(rest)
      case Good(ts) => Good([t] + ts)
      case Bad(ts) => Bad([t] + ts)
  }

  /** A star only at the end. */
  predicate StarLast(ts: seq<Token>) {
    forall i :: 0 <= i < |ts| - 1 ==> ts[i] != Star
  }

  lemma {:induction false} ParseShape(p: string)
    ensures StarLast(Parse(p).tokens) && (p != "" ==> Parse(p).tokens != [])
    decreases |p|
  {
    if p != "" && p[0] != '*' {
      ParseShape(FirstToken(p).1);
    }
  }

  /** The flat meaning of a pattern. */
  predicate Matches(ts: seq<Token>, s: string) {
    if ts == [] then s == ""
    else if ts[0] == Star then |ts| == 1
    else s != "" && Accepts(ts[0], s[0]) && Matches(ts[1..], s[1..])
  }

  lemma {:induction false} FindBehind(a: string, c: char, b: string)
    requires c !in a
    ensures Find(a + [c] + b, c) == Some(|a|)
  {
    var s := a + [c] + b;
    if a != "" {
      assert s[1..] == a[1..] + [c] + b;
      FindBehind(a[1..], c, b);
    }
  }

  /** Which names a pattern matches, read off its text. */
  predicate Means(p: string, s: string) {
    Matches(Parse(p).tokens, s)
  }

  /** A star at the end matches whatever is left; a question mark one character; a letter itself. */
  lemma {:induction false} MeansPlain(a: char, p: string, s: string)
    ensures Means("", s) <==> s == ""
    ensures Means("*", s)
    ensures Means("?" + p, s) <==> s != "" && Means(p, s[1..])
    ensures a != '*' && a != '?' && a != '[' ==> (Means([a] + p, s) <==> s != "" && s[0] == a && Means(p, s[1..]))
  {
    assert ("?" + p)[1..] == p && ([a] + p)[1..] == p;
  }

  /** A closed bracket matches one character that its item accepts, and an open one itself. */
  lemma {:induction false} MeansBracket(body: string, p: string, s: string)
    ensures ']' !in body ==> (Means("[" + body + "]" + p, s) <==> s != "" && Accepts(ParseRange(body), s[0]) && Means(p, s[1..]))
    ensures ']' !in p ==> (Means("[" + p, s) <==> s != "" && s[0] == '[' && Means(p, s[1..]))
  {
    var closed, open := "[" + body + "]" + p, "[" + p;
    if ']' !in body {
      FindBehind("[" + body, ']', p);
      assert closed[1..|body| + 1] == body && closed[|body| + 2..] == p;
    }
    assert open[1..] == p && (']' !in p ==> ']' !in open);
  }

  /** A pattern is bad exactly if a star outside of brackets is not its last character. */
  lemma {:induction false} GoodPlain(a: char, body: string, p: string)
    ensures Parse("").Good? && (Parse("*" + p).Good? <==> p == "")
    ensures a != '*' && a != '[' ==> (Parse([a] + p).Good? <==> Parse(p).Good?)
    ensures ']' !in body ==> (Parse("[" + body + "]" + p).Good? <==> Parse(p).Good?)
    ensures ']' !in p ==> (Parse("[" + p).Good? <==> Parse(p).Good?)
  {
    var closed, open := "[" + body + "]" + p, "[" + p;
    if ']' !in body {
      FindBehind("[" + body, ']', p);
      assert closed[|body| + 2..] == p;
    }
    assert ([a] + p)[1..] == p && open[1..] == p && (']' !in p ==> ']' !in open);
  }

  predicate SameTokens(a: seq<Token>, b: seq<Token>) {
    |a| == |b| && forall i :: 0 <= i < |a| ==> SameToken(a[i], b[i])
  }

  lemma {:induction false} SameTokensMatch(a: seq<Token>, b: seq<Token>, s: string)
    requires SameTokens(a, b)
    ensures Matches(a, s) <==> Matches(b, s)
  {
    if a != [] && a[0] != Star && s != "" {
      if a[0].Range? && a[0] != b[0] {
        EqualAccepts(a[0], b[0], s[0]);
      }
      SameTokensMatch(a[1..], b[1..], s[1..]);
    }
  }

  function TokenText(t: Token): string {
    match t
    case Char(c) => [c]
    case Any => "?"
    case Star => "*"
    case Range(_, _) => RangeText(t)
  }

  function Text(ts: seq<Token>): string {
    if ts == [] then "" else TokenText(ts[0]) + Text(ts[1..])
  }

  /** Printing the tokens of a good pattern reproduces the pattern. */
  lemma {:induction false} PatternRoundTrip(p: string)
    requires Parse(p).Good?
    ensures Text(Parse(p).tokens) == p
    decreases |p|
  {
    if p != "" && p[0] != '*' {
      var (t, rest) := FirstToken(p);
      PatternRoundTrip(rest);
      FirstTokenText(p);
      assert Parse(p).tokens[1..] == Parse(rest).tokens;
    } else if p != "" {
      assert [Star][1..] == [];
    }
  }

  lemma {:induction false} Brackets(p: string, k: nat)
    requires 0 < k < |p| && p[0] == '[' && p[k] == ']'
    ensures "[" + p[1..k] + "]" + p[k + 1..] == p
  {
  }

  lemma {:induction false} FirstTokenText(p: string)
    requires p != "" && p[0] != '*'
    ensures TokenText(FirstToken(p).0) + FirstToken(p).1 == p
  {
    if p[0] == '[' && Find(p, ']').Some? {
      var k := Find(p, ']').value;
      RangeRoundTrip(p[1..k]);
      Brackets(p, k);
    }
  }
}
