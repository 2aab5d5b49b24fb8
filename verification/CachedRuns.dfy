/**
 * Runs of the rule selector (pkg/table-rule-selector/trie_selector.go): changes and cached lookups, in any order.
 */
module CachedRuns {
  import opened Trie
  import opened Selectors
  import opened Singles

  type Names = (string, string)

  datatype State = State(root: Node, cache: Cache)

  datatype Call = Change(op: Op) | Ask(names: Names)

  datatype Answer = Changed(ok: bool) | Found(rules: seq<Rule>)

  const START := State(EMPTY, map[])

  // Any entry may go when the cache is full, and names may be asked for again and again.

  /** What the methods of the selector do to its fields. */
  ghost predicate Step(st: State, call: Call, answer: Answer, st': State) {
    match call
    case Change(op) =>
      var (ok, root) := TrieStep(st.root, op);
      answer == Changed(ok) && st' == State(root, if ok then map[] else st.cache)
    case Ask(names) =>
      answer.Found? && st'.root == st.root && Matched(st.root, st.cache, names.0, names.1, answer.rules, st'.cache)
  }

  ghost predicate Run(st: State, calls: seq<Call>, answers: seq<Answer>)
    decreases |calls|
  {
    |calls| == |answers|
    && (calls != [] ==> exists st' :: Step(st, calls[0], answers[0], st') && Run(st', calls[1..], answers[1..]))
  }

  /** Every lookup is answered with what a walk gives at that time. */
  ghost predicate AllRight(root: Node, calls: seq<Call>, answers: seq<Answer>)
    requires |calls| == |answers|
    decreases |calls|
  {
    calls != [] ==>
      match calls[0]
      case Change(op) => AllRight(TrieStep(root, op).1, calls[1..], answers[1..])
      case Ask(names) => answers[0] == Found(Lookups(root, names.0, names.1, true)) && AllRight(root, calls[1..], answers[1..])
  }

  /** The lookups of a run are for names of a set. */
  ghost predicate AsksOnly(calls: seq<Call>, asked: iset<Names>) {
    forall i :: 0 <= i < |calls| && calls[i].Ask? ==> calls[i].names in asked
  }

  /** No two names of a set are confused. */
  ghost predicate Distinct(asked: iset<Names>) {
    forall m, n :: m in asked && n in asked ==> !Confused(m.0, m.1, n.0, n.1)
  }

  ghost predicate Coherent(st: State, asked: iset<Names>) {
    forall n :: n in asked ==> Right(st.root, st.cache, n.0, n.1)
  }

  lemma {:induction false} StepCoherent(st: State, call: Call, answer: Answer, st': State, asked: iset<Names>)
    requires Step(st, call, answer, st') && Coherent(st, asked) && Distinct(asked) && (call.Ask? ==> call.names in asked)
    ensures Coherent(st', asked)
    ensures call.Ask? ==> answer == Found(Lookups(st.root, call.names.0, call.names.1, true))
  {
    forall n | n in asked
      ensures Right(st'.root, st'.cache, n.0, n.1)
    {
      match call
      case Change(op) =>
        if !TrieStep(st.root, op).0 {
          FailedKeeps(st.root, op, n.0, n.1);
        }
      case Ask(m) => MatchedRight(st.root, st.cache, m.0, m.1, answer.rules, st'.cache, n.0, n.1);
    }
    if call.Ask? {
      var m := call.names;
      MatchedRight(st.root, st.cache, m.0, m.1, answer.rules, st'.cache, m.0, m.1);
    }
  }

  lemma {:induction false} RunRight(st: State, calls: seq<Call>, answers: seq<Answer>, asked: iset<Names>)
    requires Run(st, calls, answers) && Coherent(st, asked) && Distinct(asked) && AsksOnly(calls, asked)
    ensures AllRight(st.root, calls, answers)
    decreases |calls|
  {
    if calls != [] {
      var st' :| Step(st, calls[0], answers[0], st') && Run(st', calls[1..], answers[1..]);
      StepCoherent(st, calls[0], answers[0], st', asked);
      RunRight(st', calls[1..], answers[1..], asked);
    }
  }

  /** Two confused names are told apart by some rule. */
  lemma {:induction false} RuleTells(m: Names, n: Names) returns (op: Op)
    requires Confused(m.0, m.1, n.0, n.1)
    ensures var (ok, root) := TrieStep(EMPTY, op);
            ok && Lookups(root, m.0, m.1, true) != Lookups(root, n.0, n.1, true)
  {
    if m.0 == "" {
      var p := PatternTells(m.1, n.1);
      TableRule(p, "r", m.0, m.1);
      TableRule(p, "r", n.0, n.1);
      op := InsertOp("*", p, "r", Insert);
    } else {
      ConfusedSchemas(m, n);
      var p := PatternTells(m.0, n.0);
      SchemaRule(p, "r", m.0, m.1);
      SchemaRule(p, "r", n.0, n.1);
      op := InsertOp(p, "", "r", Insert);
    }
  }

  lemma {:induction false} ConfusedSchemas(m: Names, n: Names)
    requires Confused(m.0, m.1, n.0, n.1) && m.0 != ""
    ensures m.0 != n.0
  {
    if Overlaps(m.0, m.1, n.0, n.1) {
      OverlapsLonger(m.0, m.1, n.0, n.1);
    } else {
      OverlapsLonger(n.0, n.1, m.0, m.1);
    }
  }

  /** A rule that tells the two names apart, and then a lookup of each. */
  lemma {:induction false} WrongRun(m: Names, n: Names) returns (calls: seq<Call>, answers: seq<Answer>)
    requires Confused(m.0, m.1, n.0, n.1)
    ensures Run(START, calls, answers) && !AllRight(EMPTY, calls, answers)
    ensures |calls| == 3 && calls[0].Change? && calls[1] == Ask(m) && calls[2] == Ask(n)
  {
    var op := RuleTells(m, n);
    KeysIff(m.0, m.1, n.0, n.1);
    calls, answers := WrongAnswers(m, n, op, TrieStep(EMPTY, op).1);
  }

  lemma {:induction false} WrongAnswers(m: Names, n: Names, op: Op, root: Node) returns (calls: seq<Call>, answers: seq<Answer>)
    requires TrieStep(EMPTY, op) == (true, root) && QuoteSchemaTable(m.0, m.1) == QuoteSchemaTable(n.0, n.1)
    requires Lookups(root, m.0, m.1, true) != Lookups(root, n.0, n.1, true)
    ensures Run(START, calls, answers) && !AllRight(EMPTY, calls, answers)
    ensures |calls| == 3 && calls[0].Change? && calls[1] == Ask(m) && calls[2] == Ask(n)
  {
    var found := Lookups(root, m.0, m.1, true);
    calls, answers := [Change(op), Ask(m), Ask(n)], [Changed(true), Found(found), Found(found)];
    var st1, st2 := State(root, map[]), State(root, map[QuoteSchemaTable(m.0, m.1) := found]);
    FirstAsked(root, m, found);
    assert Step(st2, Ask(n), Found(found), st2);
    RunOfThree(START, st1, st2, st2, calls, answers);
    LastWrong(op, root, m, n, found);
  }

  lemma {:induction false} FirstAsked(root: Node, m: Names, found: seq<Rule>)
    requires found == Lookups(root, m.0, m.1, true)
    ensures Step(State(root, map[]), Ask(m), Found(found), State(root, map[QuoteSchemaTable(m.0, m.1) := found]))
  {
    var none: Cache := map[];
    assert none[QuoteSchemaTable(m.0, m.1) := found] == map[QuoteSchemaTable(m.0, m.1) := found];
  }

  lemma {:induction false} LastWrong(op: Op, root: Node, m: Names, n: Names, found: seq<Rule>)
    requires TrieStep(EMPTY, op).1 == root && found != Lookups(root, n.0, n.1, true)
    ensures !AllRight(EMPTY, [Change(op), Ask(m), Ask(n)], [Changed(true), Found(found), Found(found)])
  {
    var calls, answers := [Change(op), Ask(m), Ask(n)], [Changed(true), Found(found), Found(found)];
    assert calls[1..] == [Ask(m), Ask(n)] && answers[1..] == [Found(found), Found(found)];
    assert calls[1..][1..] == [Ask(n)] && answers[1..][1..] == [Found(found)];
    assert !AllRight(root, [Ask(n)], [Found(found)]);
    assert !AllRight(root, [Ask(m), Ask(n)], [Found(found), Found(found)]);
  }

  lemma {:induction false} RunOfThree(st0: State, st1: State, st2: State, st3: State, calls: seq<Call>, answers: seq<Answer>)
    requires |calls| == |answers| == 3
    requires Step(st0, calls[0], answers[0], st1) && Step(st1, calls[1], answers[1], st2) && Step(st2, calls[2], answers[2], st3)
    ensures Run(st0, calls, answers)
  {
    assert Run(st3, calls[3..], answers[3..]);
    assert calls[2..][1..] == calls[3..] && answers[2..][1..] == answers[3..];
    assert Run(st2, calls[2..], answers[2..]);
    assert calls[1..][1..] == calls[2..] && answers[1..][1..] == answers[2..];
    assert Run(st1, calls[1..], answers[1..]);
  }

  lemma {:induction false} SomeConfused(asked: iset<Names>) returns (m: Names, n: Names)
    requires !Distinct(asked)
    ensures m in asked && n in asked && Confused(m.0, m.1, n.0, n.1)
  {
    m, n :| m in asked && n in asked && Confused(m.0, m.1, n.0, n.1);
  }

  lemma {:induction false} AsksTwo(calls: seq<Call>, m: Names, n: Names, asked: iset<Names>)
    requires |calls| == 3 && calls[0].Change? && calls[1] == Ask(m) && calls[2] == Ask(n) && m in asked && n in asked
    ensures AsksOnly(calls, asked)
  {
  }

  lemma {:induction false} WrongAsked(asked: iset<Names>) returns (calls: seq<Call>, answers: seq<Answer>)
    requires !Distinct(asked)
    ensures Run(START, calls, answers) && AsksOnly(calls, asked) && !AllRight(EMPTY, calls, answers)
  {
    var m, n := SomeConfused(asked);
    calls, answers := WrongRun(m, n);
    AsksTwo(calls, m, n, asked);
  }

  /**
   * For any set of names: all lookups of these names are right, in every run of changes and lookups, if and only if no
   * two of the names are confused.
   */
  lemma {:induction false} RunsRightIff(asked: iset<Names>)
    ensures (forall calls: seq<Call>, answers: seq<Answer> :: Run(START, calls, answers) && AsksOnly(calls, asked) ==> AllRight(EMPTY, calls, answers))
            <==> Distinct(asked)
  {
    if Distinct(asked) {
      forall calls: seq<Call>, answers: seq<Answer> | Run(START, calls, answers) && AsksOnly(calls, asked)
        ensures AllRight(EMPTY, calls, answers)
      {
        RunRight(START, calls, answers, asked);
      }
    } else {
      var calls, answers := WrongAsked(asked);
    }
  }

  /** Sets without confused names: any whose schemas are not empty and have no backticks. */
  lemma {:induction false} PlainDistinct(asked: iset<Names>)
    requires forall n :: n in asked ==> n.0 != "" && Plain(n.0)
    ensures Distinct(asked)
  {
    forall m, n | m in asked && n in asked
      ensures !Confused(m.0, m.1, n.0, n.1)
    {
      KeysIff(m.0, m.1, n.0, n.1);
      if Confused(m.0, m.1, n.0, n.1) {
        QuoteInjective(m.0, m.1, n.0, n.1);
        ConfusedSchemas(m, n);
      }
    }
  }

  /** Two pairs of different names: of the empty schema, and with backticks in a schema and in a table. */
  lemma {:induction false} ConfusedNames()
    ensures Confused("", "a", "", "b") && Confused("a", "b`.`c", "a`.`b", "c")
  {
    assert "a`.`b" == "a" + JOINT + "b" && "b`.`c" == "b" + JOINT + "c";
  }
}
