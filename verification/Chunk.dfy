/**
 * Chunk identities, column bounds, and the compilation of bounds to a parameterised SQL condition
 * (sync_diff_inspector/chunk/chunk.go).
 */
module Chunks {
  import opened Wrappers
  import opened Keys
  import opened Cover

  datatype ChunkID = ChunkID(table: int, left: int, right: int, index: int, count: int)

  const INIT_CHUNK_ID := ChunkID(-1, -1, -1, -1, 0)

  /** -1, 0 or 1; the right bucket and the chunk count take no part. */
  function Compare(c: ChunkID, o: ChunkID): int {
    if c.table < o.table then -1
    else if c.table > o.table then 1
    else if c.left < o.left then -1
    else if c.left > o.left then 1
    else if c.index < o.index then -1
    else if c.index == o.index then 0
    else 1
  }

  lemma {:induction false} CompareIsTotalOrder(a: ChunkID, b: ChunkID, c: ChunkID)
    ensures Compare(a, b) == -Compare(b, a)
    ensures Compare(a, b) == 0 <==> a.table == b.table && a.left == b.left && a.index == b.index
    ensures Compare(a, b) <= 0 && Compare(b, c) <= 0 ==> Compare(a, c) <= 0
    ensures Compare(a, b) < 0 && Compare(b, c) <= 0 ==> Compare(a, c) < 0
    ensures Compare(a, b) <= 0 && Compare(b, c) < 0 ==> Compare(a, c) < 0
  {
  }

  datatype Bound = Bound(column: string, lower: Value, upper: Value, hasLower: bool, hasUpper: bool)

  /** What the program stores for a side that has no bound. */
  const NO_VALUE := Value("", 0.0)

  // ---------- SQL conditions ----------

  datatype Op = Eq | Gt | Lt | Le

  /** A condition; every comparison takes one placeholder. */
  datatype Cond =
    | TrueCond
    | FalseCond
    | Cmp(column: string, op: Op)
    | AllOf(conds: seq<Cond>)
    | AnyOf(conds: seq<Cond>)

  type TableRow = string -> Option<Value>

  function Holds(op: Op, x: Option<Value>, arg: Value): Tri {
    if x.None? then U
    else match op
      case Eq => Truth(x.value.rank == arg.rank)
      case Gt => Truth(x.value.rank > arg.rank)
      case Lt => Truth(x.value.rank < arg.rank)
      case Le => Truth(x.value.rank <= arg.rank)
  }

  /** A truth value and the arguments left over, or nothing when the arguments run out. */
  datatype Outcome = Outcome(tri: Tri, rest: seq<Value>) | OutOfArgs

  /** Evaluates a condition; placeholders take arguments from left to right. */
  function Eval(c: Cond, row: TableRow, args: seq<Value>): Outcome
    decreases c, 0
  {
    match c
    case TrueCond => Outcome(T, args)
    case FalseCond => Outcome(F, args)
    case Cmp(column, op) =>
      if args == [] then OutOfArgs else Outcome(Holds(op, row(column), args[0]), args[1..])
    case AllOf(conds) => EvalAll(conds, row, args)
    case AnyOf(conds) => EvalAny(conds, row, args)
  }

  function EvalAll(conds: seq<Cond>, row: TableRow, args: seq<Value>): Outcome
    decreases conds, 1
  {
    if conds == [] then Outcome(T, args)
    else match Eval(conds[0], row, args)
      case OutOfArgs => OutOfArgs
      case Outcome(a, mid) =>
        match EvalAll(conds[1..], row, mid)
        case OutOfArgs => OutOfArgs
        case Outcome(b, rest) => Outcome(And(a, b), rest)
  }

  function EvalAny(conds: seq<Cond>, row: TableRow, args: seq<Value>): Outcome
    decreases conds, 1
  {
    if conds == [] then Outcome(F, args)
    else match Eval(conds[0], row, args)
      case OutOfArgs => OutOfArgs
      case Outcome(a, mid) =>
        match EvalAny(conds[1..], row, mid)
        case OutOfArgs => OutOfArgs
        case Outcome(b, rest) => Outcome(Or(a, b), rest)
  }

  lemma {:induction false} EvalAnyAppend(a: seq<Cond>, b: seq<Cond>, row: TableRow, args: seq<Value>)
    requires EvalAny(a, row, args).Outcome?
    ensures EvalAny(a + b, row, args) ==
            var x := EvalAny(a, row, args);
            match EvalAny(b, row, x.rest)
            case OutOfArgs => OutOfArgs
            case Outcome(t, rest) => Outcome(Or(x.tri, t), rest)
  {
    if a == [] {
      assert a + b == b;
    } else {
      assert (a + b)[1..] == a[1..] + b;
      EvalAnyAppend(a[1..], b, row, Eval(a[0], row, args).rest);
    }
  }

  /** The placeholders of a condition. */
  function Marks(c: Cond): nat
    decreases c, 0
  {
    match c
    case TrueCond => 0
    case FalseCond => 0
    case Cmp(_, _) => 1
    case AllOf(conds) => MarksOf(conds)
    case AnyOf(conds) => MarksOf(conds)
  }

  function MarksOf(conds: seq<Cond>): nat
    decreases conds, 1
  {
    if conds == [] then 0 else Marks(conds[0]) + MarksOf(conds[1..])
  }

  /** Each takes one argument, from the left; with fewer arguments there is no outcome. */
  lemma {:induction false} EvalTakes(c: Cond, row: TableRow, args: seq<Value>)
    ensures if |args| < Marks(c) then Eval(c, row, args) == OutOfArgs
            else Eval(c, row, args).Outcome? && Eval(c, row, args).rest == args[Marks(c)..]
    decreases c, 0
  {
    match c
    case TrueCond =>
    case FalseCond =>
    case Cmp(_, _) =>
    case AllOf(conds) => ListTakes(conds, row, args);
    case AnyOf(conds) => ListTakes(conds, row, args);
  }

  lemma {:induction false} ListTakes(conds: seq<Cond>, row: TableRow, args: seq<Value>)
    ensures if |args| < MarksOf(conds) then EvalAll(conds, row, args) == OutOfArgs == EvalAny(conds, row, args)
            else && EvalAll(conds, row, args).Outcome? && EvalAll(conds, row, args).rest == args[MarksOf(conds)..]
                 && EvalAny(conds, row, args).Outcome? && EvalAny(conds, row, args).rest == args[MarksOf(conds)..]
    decreases conds, 1
  {
    if conds != [] {
      EvalTakes(conds[0], row, args);
      if |args| >= Marks(conds[0]) {
        ListTakes(conds[1..], row, args[Marks(conds[0])..]);
      }
    }
  }

  // ---------- The terms of one side of a range ----------

  /** One bounded column of one side: its comparison and its argument. */
  datatype Item = Item(column: string, op: Op, arg: Value)

  function ItemArgs(items: seq<Item>): seq<Value> {
    seq(|items|, i requires 0 <= i < |items| => items[i].arg)
  }

  /** The comparisons `column = ?` for a run of columns. */
  function Equalities(items: seq<Item>): seq<Cond> {
    seq(|items|, i requires 0 <= i < |items| => Cmp(items[i].column, Eq))
  }

  /** The last column compared, all columns before it equal. */
  function Term(items: seq<Item>): Cond
    requires items != []
  {
    var n := |items| - 1;
    if n == 0 then Cmp(items[0].column, items[0].op)
    else AllOf(Equalities(items[..n]) + [Cmp(items[n].column, items[n].op)])
  }

  function Terms(items: seq<Item>): seq<Cond> {
    seq(|items|, i requires 0 <= i < |items| => Term(items[..i + 1]))
  }

  function TermArgs(items: seq<Item>): seq<Value> {
    if items == [] then []
    else TermArgs(items[..|items| - 1]) + ItemArgs(items)
  }

  /** A column strictly after its lower value. */
  function LowerItem(bounds: seq<Bound>, i: nat): Item
    requires i < |bounds|
  {
    Item(bounds[i].column, Gt, bounds[i].lower)
  }

  /** The columns `from <= i < to` that have a lower bound. */
  function LowerItems(bounds: seq<Bound>, from: nat, to: nat): seq<Item>
    requires from <= to <= |bounds|
  {
    if from == to then []
    else LowerItems(bounds, from, to - 1) + if bounds[to - 1].hasLower then [LowerItem(bounds, to - 1)] else []
  }

  /** Only the last column of the range admits equality with its upper value. */
  function UpperItem(bounds: seq<Bound>, i: nat): Item
    requires i < |bounds|
  {
    Item(bounds[i].column, if i + 1 == |bounds| then Le else Lt, bounds[i].upper)
  }

  /** Likewise for upper bounds. */
  function UpperItems(bounds: seq<Bound>, from: nat, to: nat): seq<Item>
    requires from <= to <= |bounds|
  {
    if from == to then []
    else UpperItems(bounds, from, to - 1) + if bounds[to - 1].hasUpper then [UpperItem(bounds, to - 1)] else []
  }

  predicate SameBound(b: Bound) {
    b.hasLower && b.hasUpper && b.lower == b.upper
  }

  /** How many leading columns have equal lower and upper values. */
  function SamePrefix(bounds: seq<Bound>): (n: nat)
    ensures n <= |bounds|
    ensures forall i :: 0 <= i < n ==> SameBound(bounds[i])
    ensures n < |bounds| ==> !SameBound(bounds[n])
  {
    if bounds == [] || !SameBound(bounds[0]) then 0 else 1 + SamePrefix(bounds[1..])
  }

  function SameItems(bounds: seq<Bound>): seq<Item> {
    seq(|bounds|, i requires 0 <= i < |bounds| => Item(bounds[i].column, Eq, bounds[i].lower))
  }

  /** The condition and arguments of a range, as one expression. */
  function Compile(bounds: seq<Bound>): (Cond, seq<Value>) {
    var n := SamePrefix(bounds);
    if n == |bounds| && n > 0 then (FalseCond, [])
    else
      var same := SameItems(bounds[..n]);
      var lower := LowerItems(bounds, n, |bounds|);
      var upper := UpperItems(bounds, n, |bounds|);
      Assemble(Equalities(same), ItemArgs(same), Terms(lower), TermArgs(lower), Terms(upper), TermArgs(upper))
  }

  /** Joins the three parts, leaving out the empty ones. */
  function Assemble(same: seq<Cond>, sameArgs: seq<Value>, lower: seq<Cond>, lowerArgs: seq<Value>,
                    upper: seq<Cond>, upperArgs: seq<Value>): (Cond, seq<Value>)
  {
    if same == [] then
      if upper == [] && lower == [] then (TrueCond, [])
      else if upper == [] then (AnyOf(lower), lowerArgs)
      else if lower == [] then (AnyOf(upper), upperArgs)
      else (AllOf([AnyOf(lower), AnyOf(upper)]), lowerArgs + upperArgs)
    else
      if upper == [] && lower == [] then (AllOf(same), sameArgs)
      else if upper == [] then (AllOf([AllOf(same), AnyOf(lower)]), sameArgs + lowerArgs)
      else if lower == [] then (AllOf([AllOf(same), AnyOf(upper)]), sameArgs + upperArgs)
      else (AllOf([AllOf(same), AnyOf(lower), AnyOf(upper)]), sameArgs + lowerArgs + upperArgs)
  }

  // ---------- What the condition means ----------

  /** Every bound has a lower value or none has, and likewise for upper values. */
  predicate Uniform(bounds: seq<Bound>) {
    forall i :: 0 <= i < |bounds| ==> bounds[i].hasLower == bounds[0].hasLower && bounds[i].hasUpper == bounds[0].hasUpper
  }

  function Lowers(bounds: seq<Bound>): Key {
    seq(|bounds|, i requires 0 <= i < |bounds| => bounds[i].lower)
  }

  function Uppers(bounds: seq<Bound>): Key {
    seq(|bounds|, i requires 0 <= i < |bounds| => bounds[i].upper)
  }

  function Columns(bounds: seq<Bound>): seq<string> {
    seq(|bounds|, i requires 0 <= i < |bounds| => bounds[i].column)
  }

  function KeyOf(row: TableRow, columns: seq<string>): RowKey {
    seq(|columns|, i requires 0 <= i < |columns| => row(columns[i]))
  }

  /** The key interval a uniform list of bounds stands for. */
  function IntervalOf(bounds: seq<Bound>): Interval {
    Interval(if bounds != [] && bounds[0].hasLower then Some(Lowers(bounds)) else None,
             if bounds != [] && bounds[0].hasUpper then Some(Uppers(bounds)) else None)
  }

  /** Conjunction of the equalities of a run of columns. */
  function AllEqual(items: seq<Item>, row: TableRow): Tri {
    if items == [] then T
    else And(Holds(Eq, row(items[0].column), items[0].arg), AllEqual(items[1..], row))
  }

  /** Lexicographic comparison, first column first. */
  function Lex(items: seq<Item>, row: TableRow): Tri {
    if items == [] then F
    else
      var x := row(items[0].column);
      Or(Holds(items[0].op, x, items[0].arg), And(Holds(Eq, x, items[0].arg), Lex(items[1..], row)))
  }

  /** Adding a last column adds one term to the disjunction. */
  lemma {:induction false} LexSnoc(items: seq<Item>, last: Item, row: TableRow)
    ensures Lex(items + [last], row) ==
            Or(Lex(items, row), And(AllEqual(items, row), Holds(last.op, row(last.column), last.arg)))
  {
    if items == [] {
      assert items + [last] == [last];
      assert Lex([last][1..], row) == F;
    } else {
      assert (items + [last])[1..] == items[1..] + [last];
      LexSnoc(items[1..], last, row);
    }
  }

  lemma {:induction false} EvalEqualities(items: seq<Item>, tail: seq<Cond>, row: TableRow, rest: seq<Value>)
    ensures EvalAll(Equalities(items) + tail, row, ItemArgs(items) + rest) ==
            match EvalAll(tail, row, rest)
            case OutOfArgs => OutOfArgs
            case Outcome(t, r) => Outcome(And(AllEqual(items, row), t), r)
  {
    if items == [] {
      assert Equalities(items) + tail == tail;
      assert ItemArgs(items) + rest == rest;
    } else {
      assert (Equalities(items) + tail)[1..] == Equalities(items[1..]) + tail;
      assert (ItemArgs(items) + rest)[1..] == ItemArgs(items[1..]) + rest;
      EvalEqualities(items[1..], tail, row, rest);
    }
  }

  lemma {:induction false} EvalTerm(items: seq<Item>, row: TableRow, rest: seq<Value>)
    requires items != []
    ensures var n := |items| - 1;
            Eval(Term(items), row, ItemArgs(items) + rest) ==
            Outcome(And(AllEqual(items[..n], row), Holds(items[n].op, row(items[n].column), items[n].arg)), rest)
  {
    var n := |items| - 1;
    var last := Cmp(items[n].column, items[n].op);
    assert ItemArgs(items) + rest == ItemArgs(items[..n]) + ([items[n].arg] + rest);
    assert ([items[n].arg] + rest)[1..] == rest;
    assert EvalAll([last][1..], row, rest) == Outcome(T, rest);
    if n > 0 {
      EvalEqualities(items[..n], [last], row, [items[n].arg] + rest);
    }
  }

  lemma {:induction false} TermsSnoc(items: seq<Item>)
    requires items != []
    ensures Terms(items) == Terms(items[..|items| - 1]) + [Term(items)]
  {
    var init := items[..|items| - 1];
    assert items[..|items|] == items;
    forall i | 0 <= i < |init|
      ensures Terms(items)[i] == Terms(init)[i]
    {
      assert init[..i + 1] == items[..i + 1];
    }
  }

  /** The disjunction of a side's terms, on the side's own arguments, is the lexicographic comparison. */
  lemma {:induction false} EvalTerms(items: seq<Item>, row: TableRow, rest: seq<Value>)
    ensures EvalAny(Terms(items), row, TermArgs(items) + rest) == Outcome(Lex(items, row), rest)
  {
    if items == [] {
      assert TermArgs(items) + rest == rest;
    } else {
      var n := |items| - 1;
      var init := items[..n];
      var more := ItemArgs(items) + rest;
      assert TermArgs(items) + rest == TermArgs(init) + more;
      TermsSnoc(items);
      EvalTerms(init, row, more);
      EvalAnyAppend(Terms(init), [Term(items)], row, TermArgs(init) + more);
      EvalTerm(items, row, rest);
      assert EvalAny([Term(items)][1..], row, rest) == Outcome(F, rest);
      assert items == init + [items[n]];
      LexSnoc(init, items[n], row);
    }
  }

  /** A side with a value on every column, first column first. */
  lemma {:induction false} LowerItemsAll(bounds: seq<Bound>, from: nat, to: nat)
    requires from <= to <= |bounds|
    requires forall i :: 0 <= i < |bounds| ==> bounds[i].hasLower
    ensures LowerItems(bounds, from, to) ==
            seq(to - from, i requires 0 <= i < to - from => LowerItem(bounds, from + i))
  {
    if from < to {
      LowerItemsAll(bounds, from, to - 1);
    }
  }

  lemma {:induction false} UpperItemsAll(bounds: seq<Bound>, from: nat, to: nat)
    requires from <= to <= |bounds|
    requires forall i :: 0 <= i < |bounds| ==> bounds[i].hasUpper
    ensures UpperItems(bounds, from, to) ==
            seq(to - from, i requires 0 <= i < to - from => UpperItem(bounds, from + i))
  {
    if from < to {
      UpperItemsAll(bounds, from, to - 1);
    }
  }

  lemma {:induction false} ItemsNone(bounds: seq<Bound>, from: nat, to: nat)
    requires from <= to <= |bounds|
    ensures (forall i :: 0 <= i < |bounds| ==> !bounds[i].hasLower) ==> LowerItems(bounds, from, to) == []
    ensures (forall i :: 0 <= i < |bounds| ==> !bounds[i].hasUpper) ==> UpperItems(bounds, from, to) == []
  {
    if from < to {
      ItemsNone(bounds, from, to - 1);
    }
  }

  lemma {:induction false} LexLower(items: seq<Item>, row: TableRow)
    requires forall i :: 0 <= i < |items| ==> items[i].op == Gt
    ensures Lex(items, row) == After(KeyOf(row, seq(|items|, i requires 0 <= i < |items| => items[i].column)), ItemArgs(items))
  {
    var key := KeyOf(row, seq(|items|, i requires 0 <= i < |items| => items[i].column));
    if items != [] {
      var tail := items[1..];
      assert key[1..] == KeyOf(row, seq(|tail|, i requires 0 <= i < |tail| => tail[i].column));
      assert ItemArgs(items)[1..] == ItemArgs(tail);
      LexLower(tail, row);
    }
  }

  lemma {:induction false} LexUpper(items: seq<Item>, row: TableRow)
    requires items != []
    requires forall i :: 0 <= i < |items| ==> items[i].op == if i == |items| - 1 then Le else Lt
    ensures Lex(items, row) == Not(After(KeyOf(row, seq(|items|, i requires 0 <= i < |items| => items[i].column)), ItemArgs(items)))
  {
    var key := KeyOf(row, seq(|items|, i requires 0 <= i < |items| => items[i].column));
    var tail := items[1..];
    assert key[1..] == KeyOf(row, seq(|tail|, i requires 0 <= i < |tail| => tail[i].column));
    assert ItemArgs(items)[1..] == ItemArgs(tail);
    if tail != [] {
      LexUpper(tail, row);
    }
  }

  /** Comparing past a shared prefix: settled inside the prefix, or decided by the remaining columns. */
  lemma {:induction false} AfterSplit(row: RowKey, k: Key, n: nat)
    requires |row| == |k| && n <= |k|
    ensures After(row[..n], k[..n]) != F ==> After(row, k) == After(row[..n], k[..n])
    ensures PrefixAgrees(row, k, n) ==> After(row[..n], k[..n]) == F && After(row, k) == After(row[n..], k[n..])
    ensures !PrefixAgrees(row, k, n) ==> After(row, k) == After(row[..n], k[..n])
  {
    if n > 0 {
      assert row[..n][1..] == row[1..][..n - 1];
      assert k[..n][1..] == k[1..][..n - 1];
      assert row[1..][n - 1..] == row[n..];
      assert k[1..][n - 1..] == k[n..];
      AfterSplit(row[1..], k[1..], n - 1);
      assert PrefixAgrees(row, k, n) <==> row[0].Some? && row[0].value.rank == k[0].rank && PrefixAgrees(row[1..], k[1..], n - 1);
    } else {
      assert row[n..] == row && k[n..] == k;
    }
  }

  predicate PrefixAgrees(row: RowKey, k: Key, n: nat)
    requires |row| == |k| && n <= |k|
  {
    forall i :: 0 <= i < n ==> row[i].Some? && row[i].value.rank == k[i].rank
  }

  lemma {:induction false} AllEqualAgrees(items: seq<Item>, row: TableRow)
    ensures AllEqual(items, row) == T <==>
            forall i :: 0 <= i < |items| ==> Holds(Eq, row(items[i].column), items[i].arg) == T
  {
    if items != [] {
      AllEqualAgrees(items[1..], row);
    }
  }

  function Side(items: seq<Item>, row: TableRow): Tri {
    if items == [] then T else Lex(items, row)
  }

  /** Evaluating a conjunction of one part before others. */
  lemma {:induction false} EvalFirst(c: Cond, more: seq<Cond>, row: TableRow, args: seq<Value>)
    requires Eval(c, row, args).Outcome?
    ensures EvalAll([c] + more, row, args) ==
            match EvalAll(more, row, Eval(c, row, args).rest)
            case OutOfArgs => OutOfArgs
            case Outcome(t, rest) => Outcome(And(Eval(c, row, args).tri, t), rest)
  {
    assert ([c] + more)[1..] == more;
  }

  lemma {:induction false} SideMeaning(items: seq<Item>, row: TableRow, rest: seq<Value>)
    requires items != []
    ensures Eval(AnyOf(Terms(items)), row, TermArgs(items) + rest) == Outcome(Side(items, row), rest)
    ensures EvalAll([AnyOf(Terms(items))], row, TermArgs(items) + rest) == Outcome(Side(items, row), rest)
  {
    EvalTerms(items, row, rest);
    EvalFirst(AnyOf(Terms(items)), [], row, TermArgs(items) + rest);
    assert [AnyOf(Terms(items))] + [] == [AnyOf(Terms(items))];
  }

  lemma {:induction false} BothSidesMeaning(lower: seq<Item>, upper: seq<Item>, row: TableRow)
    requires lower != [] && upper != []
    ensures EvalAll([AnyOf(Terms(lower)), AnyOf(Terms(upper))], row, TermArgs(lower) + TermArgs(upper)) ==
            Outcome(And(Side(lower, row), Side(upper, row)), [])
  {
    SideMeaning(lower, row, TermArgs(upper));
    SideMeaning(upper, row, []);
    assert TermArgs(upper) + [] == TermArgs(upper);
    EvalFirst(AnyOf(Terms(lower)), [AnyOf(Terms(upper))], row, TermArgs(lower) + TermArgs(upper));
    assert [AnyOf(Terms(lower))] + [AnyOf(Terms(upper))] == [AnyOf(Terms(lower)), AnyOf(Terms(upper))];
  }

  lemma {:induction false} SameMeaning(same: seq<Item>, row: TableRow, rest: seq<Value>)
    ensures Eval(AllOf(Equalities(same)), row, ItemArgs(same) + rest) == Outcome(AllEqual(same, row), rest)
  {
    EvalEqualities(same, [], row, rest);
    assert Equalities(same) + [] == Equalities(same);
  }

  function Sides(lower: seq<Item>, upper: seq<Item>): (seq<Cond>, seq<Value>) {
    if upper == [] && lower == [] then ([], [])
    else if upper == [] then ([AnyOf(Terms(lower))], TermArgs(lower))
    else if lower == [] then ([AnyOf(Terms(upper))], TermArgs(upper))
    else ([AnyOf(Terms(lower)), AnyOf(Terms(upper))], TermArgs(lower) + TermArgs(upper))
  }

  lemma {:induction false} SidesMeaning(lower: seq<Item>, upper: seq<Item>, row: TableRow)
    ensures EvalAll(Sides(lower, upper).0, row, Sides(lower, upper).1) ==
            Outcome(And(Side(lower, row), Side(upper, row)), [])
  {
    if lower != [] && upper != [] {
      BothSidesMeaning(lower, upper, row);
    } else if lower != [] {
      SideMeaning(lower, row, []);
      assert TermArgs(lower) + [] == TermArgs(lower);
    } else if upper != [] {
      SideMeaning(upper, row, []);
      assert TermArgs(upper) + [] == TermArgs(upper);
    }
  }

  /** The assembled condition is the conjunction of its parts and uses up its arguments. */
  lemma {:induction false} AssembleMeaning(same: seq<Item>, lower: seq<Item>, upper: seq<Item>, row: TableRow)
    ensures var (cond, args) := Assemble(Equalities(same), ItemArgs(same), Terms(lower), TermArgs(lower), Terms(upper), TermArgs(upper));
            Eval(cond, row, args) == Outcome(And(AllEqual(same, row), And(Side(lower, row), Side(upper, row))), [])
  {
    var (sides, sideArgs) := Sides(lower, upper);
    SidesMeaning(lower, upper, row);
    assert |Terms(lower)| == |lower| && |Terms(upper)| == |upper| && |Equalities(same)| == |same|;
    if same == [] {
      if |sides| == 1 {
        assert EvalAll(sides[1..], row, []) == Outcome(T, []);
        SideMeaning(if upper == [] then lower else upper, row, []);
        assert sideArgs + [] == sideArgs;
      }
    } else {
      SameMeaning(same, row, sideArgs);
      EvalFirst(AllOf(Equalities(same)), sides, row, ItemArgs(same) + sideArgs);
      if sides == [] {
        assert ItemArgs(same) + sideArgs == ItemArgs(same);
      } else {
        AssembleShape(same, lower, upper);
      }
    }
  }

  lemma {:induction false} AssembleShape(same: seq<Item>, lower: seq<Item>, upper: seq<Item>)
    requires same != [] && (lower != [] || upper != [])
    ensures var (sides, sideArgs) := Sides(lower, upper);
            Assemble(Equalities(same), ItemArgs(same), Terms(lower), TermArgs(lower), Terms(upper), TermArgs(upper)) ==
            (AllOf([AllOf(Equalities(same))] + sides), ItemArgs(same) + sideArgs)
  {
    assert |Terms(lower)| == |lower| && |Terms(upper)| == |upper| && |Equalities(same)| == |same|;
    var eq, low, up := AllOf(Equalities(same)), AnyOf(Terms(lower)), AnyOf(Terms(upper));
    assert [eq] + [low, up] == [eq, low, up];
    assert [eq] + [low] == [eq, low] && [eq] + [up] == [eq, up];
    assert ItemArgs(same) + (TermArgs(lower) + TermArgs(upper)) == ItemArgs(same) + TermArgs(lower) + TermArgs(upper);
  }

  /** The comparison of the columns from `n` on, for a side that bounds every column. */
  lemma {:induction false} LowerSide(bounds: seq<Bound>, n: nat, row: TableRow)
    requires n < |bounds| && forall i :: 0 <= i < |bounds| ==> bounds[i].hasLower
    ensures Side(LowerItems(bounds, n, |bounds|), row) ==
            After(KeyOf(row, Columns(bounds))[n..], Lowers(bounds)[n..])
  {
    var items := LowerItems(bounds, n, |bounds|);
    LowerItemsAll(bounds, n, |bounds|);
    assert forall i :: 0 <= i < |items| ==> items[i] == LowerItem(bounds, n + i);
    LexLower(items, row);
    assert KeyOf(row, Columns(bounds))[n..] == KeyOf(row, seq(|items|, i requires 0 <= i < |items| => items[i].column));
    assert Lowers(bounds)[n..] == ItemArgs(items);
  }

  lemma {:induction false} UpperSide(bounds: seq<Bound>, n: nat, row: TableRow)
    requires n < |bounds| && forall i :: 0 <= i < |bounds| ==> bounds[i].hasUpper
    ensures Side(UpperItems(bounds, n, |bounds|), row) ==
            Not(After(KeyOf(row, Columns(bounds))[n..], Uppers(bounds)[n..]))
  {
    var items := UpperItems(bounds, n, |bounds|);
    UpperItemsAll(bounds, n, |bounds|);
    assert forall i :: 0 <= i < |items| ==> items[i] == UpperItem(bounds, n + i);
    LexUpper(items, row);
    assert KeyOf(row, Columns(bounds))[n..] == KeyOf(row, seq(|items|, i requires 0 <= i < |items| => items[i].column));
    assert Uppers(bounds)[n..] == ItemArgs(items);
  }

  lemma {:induction false} SamePart(bounds: seq<Bound>, n: nat, row: TableRow)
    requires n <= |bounds| && forall i :: 0 <= i < n ==> SameBound(bounds[i])
    ensures AllEqual(SameItems(bounds[..n]), row) == T <==> PrefixAgrees(KeyOf(row, Columns(bounds)), Lowers(bounds), n)
    ensures Lowers(bounds)[..n] == Uppers(bounds)[..n]
    ensures PrefixAgrees(KeyOf(row, Columns(bounds)), Lowers(bounds), n)
            <==> PrefixAgrees(KeyOf(row, Columns(bounds)), Uppers(bounds), n)
  {
    var items := SameItems(bounds[..n]);
    AllEqualAgrees(items, row);
    var key := KeyOf(row, Columns(bounds));
    forall i | 0 <= i < n
      ensures Holds(Eq, row(items[i].column), items[i].arg) == T <==> key[i].Some? && key[i].value.rank == Lowers(bounds)[i].rank
      ensures Lowers(bounds)[i] == Uppers(bounds)[i]
    {
      assert SameBound(bounds[i]);
      assert items[i].column == bounds[i].column == Columns(bounds)[i];
    }
  }

  /**
   * For bounds present on all columns or on none, the compiled condition takes its arguments from left
   * to right, leaves none over, and is true exactly for the rows whose key lies after the lower values
   * and up to the upper values, in lexicographic order.
   */
  lemma {:induction false} CompileMeaning(bounds: seq<Bound>, row: TableRow)
    requires Uniform(bounds)
    ensures var (cond, args) := Compile(bounds);
            var key := KeyOf(row, Columns(bounds));
            var result := Eval(cond, row, args);
            && result.Outcome? && result.rest == []
            && (result.tri == T <==> Selects(IntervalOf(bounds), key))
  {
    var n := SamePrefix(bounds);
    var key := KeyOf(row, Columns(bounds));
    if bounds != [] && n < |bounds| {
      var lower, upper := LowerItems(bounds, n, |bounds|), UpperItems(bounds, n, |bounds|);
      AssembleMeaning(SameItems(bounds[..n]), lower, upper, row);
      SamePart(bounds, n, row);
      ItemsNone(bounds, n, |bounds|);
      AfterSplit(key, Lowers(bounds), n);
      AfterSplit(key, Uppers(bounds), n);
      if bounds[0].hasLower {
        LowerSide(bounds, n, row);
      }
      if bounds[0].hasUpper {
        UpperSide(bounds, n, row);
      }
      if n > 0 {
        assert SameBound(bounds[0]);
      } else {
        assert PrefixAgrees(key, Lowers(bounds), 0);
      }
    } else if bounds != [] {
      SamePart(bounds, n, row);
      assert Lowers(bounds)[..n] == Lowers(bounds) && Uppers(bounds)[..n] == Uppers(bounds);
      assert SameBound(bounds[0]);
    }
  }

  /** The compiled condition has as many placeholders as there are arguments. */
  lemma {:induction false} CompiledArgs(bounds: seq<Bound>)
    requires Uniform(bounds)
    ensures |Compile(bounds).1| == Marks(Compile(bounds).0)
  {
    var row: TableRow := _ => None;
    CompileMeaning(bounds, row);
    EvalTakes(Compile(bounds).0, row, Compile(bounds).1);
  }
}
