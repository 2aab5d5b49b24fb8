/**
 * Schema properties as elements of partial join-semilattices (pkg/schemacmp/lattice.go, pkg/schemacmp/util.go,
 * and the index map of pkg/schemacmp/table.go).
 */
module Lattices {
  import opened Wrappers

  /** What a singleton holds; values of different kinds are never equal. */
  datatype Atom = Text(text: string) | Number(number: int) | Flag(flag: bool)

  datatype Scalar = ByteScalar | IntScalar | Int64Scalar | UintScalar

  /** A column of an index: its name and prefix length. */
  datatype IndexColumn = IndexColumn(name: string, length: int)

  datatype Lattice =
    | Bool(flag: bool)
    | Singleton(value: Atom)
    | EqualitySingleton(columns: seq<IndexColumn>)
    | BitSet(bits: set<nat>)
    | Ordinal(scalar: Scalar, n: int)
    | FieldTp(tp: int)
    | Tuple(elems: seq<Lattice>)
    | MaybeNil
    | Maybe(inner: Lattice)
    | StringList(list: seq<string>)
    | IndexMap(entries: map<string, Lattice>)

  // ---------- MySQL types ----------

  const TINY := 1
  const SHORT := 2
  const LONG := 3
  const LONGLONG := 8
  const INT24 := 9
  const TINY_BLOB := 249
  const MEDIUM_BLOB := 250
  const LONG_BLOB := 251
  const BLOB := 252

  predicate IsIntegerType(t: int) {
    t == TINY || t == SHORT || t == INT24 || t == LONG || t == LONGLONG
  }

  predicate IsTypeBlob(t: int) {
    t == TINY_BLOB || t == MEDIUM_BLOB || t == BLOB || t == LONG_BLOB
  }

  function CompareMySQLIntegerType(a: int, b: int): int {
    if a == b then 0
    else if a == INT24 then (if b <= SHORT then 1 else -1)
    else if b == INT24 then (if a <= SHORT then -1 else 1)
    else if a < b then -1
    else 1
  }

  function CompareMySQLBlobType(a: int, b: int): int {
    if a == b then 0
    else if a == BLOB then (if b == TINY_BLOB then 1 else -1)
    else if b == BLOB then (if a == TINY_BLOB then -1 else 1)
    else if a < b then -1
    else 1
  }

  /** The place of a type among the types it can be widened from or to. */
  function Place(t: int): int {
    if t == TINY || t == TINY_BLOB then 0
    else if t == SHORT || t == BLOB then 1
    else if t == INT24 || t == MEDIUM_BLOB then 2
    else if t == LONG || t == LONG_BLOB then 3
    else 4
  }

  predicate Widens(a: int, b: int) {
    a == b || (((IsIntegerType(a) && IsIntegerType(b)) || (IsTypeBlob(a) && IsTypeBlob(b))) && Place(a) <= Place(b))
  }

  /** The comparisons by branches order the types by their width. */
  lemma {:induction false} TypeOrders(a: int, b: int)
    ensures IsIntegerType(a) && IsIntegerType(b) ==> CompareMySQLIntegerType(a, b) == OrderOf(Widens(a, b), Widens(b, a)).value
    ensures IsTypeBlob(a) && IsTypeBlob(b) ==> CompareMySQLBlobType(a, b) == OrderOf(Widens(a, b), Widens(b, a)).value
    ensures (IsIntegerType(a) && IsIntegerType(b)) || (IsTypeBlob(a) && IsTypeBlob(b)) ==> OrderOf(Widens(a, b), Widens(b, a)).Some?
  {
  }

  // ---------- The order ----------

  /** The reference order; in an index map a missing index is above every index. */
  predicate Below(a: Lattice, b: Lattice)
    decreases a
  {
    match a
    case Bool(x) => b.Bool? && (x ==> b.flag)
    case Singleton(x) => b.Singleton? && x == b.value
    case EqualitySingleton(x) => b.EqualitySingleton? && x == b.columns
    case BitSet(x) => b.BitSet? && x <= b.bits
    case Ordinal(s, x) => b.Ordinal? && s == b.scalar && x <= b.n
    case FieldTp(x) => b.FieldTp? && Widens(x, b.tp)
    case Tuple(xs) => b.Tuple? && |xs| == |b.elems| && forall i :: 0 <= i < |xs| ==> Below(xs[i], b.elems[i])
    case MaybeNil => b.MaybeNil? || b.Maybe?
    case Maybe(x) => b.Maybe? && Below(x, b.inner)
    case StringList(xs) => b.StringList? && xs <= b.list
    case IndexMap(m) => b.IndexMap? && b.entries.Keys <= m.Keys && forall k :: k in b.entries ==> Below(m[k], b.entries[k])
  }

  /** -1, 0 or 1 for ordered values; nothing for values that are not ordered. */
  function OrderOf(le: bool, ge: bool): Option<int> {
    if le && ge then Some(0) else if le then Some(-1) else if ge then Some(1) else None
  }

  /** What comparing two values should give. */
  function Order(a: Lattice, b: Lattice): Option<int> {
    OrderOf(Below(a, b), Below(b, a))
  }

  lemma {:induction false} BelowReflexive(a: Lattice)
    ensures Below(a, a)
    decreases a
  {
    match a
    case Tuple(xs) =>
      forall i | 0 <= i < |xs|
        ensures Below(xs[i], xs[i])
      {
        BelowReflexive(xs[i]);
      }
    case Maybe(x) => BelowReflexive(x);
    case IndexMap(m) =>
      forall k | k in m
        ensures Below(m[k], m[k])
      {
        BelowReflexive(m[k]);
      }
    case _ =>
  }

  lemma {:induction false} BelowTransitive(a: Lattice, b: Lattice, c: Lattice)
    requires Below(a, b) && Below(b, c)
    ensures Below(a, c)
    decreases a
  {
    match a
    case Tuple(xs) =>
      forall i | 0 <= i < |xs|
        ensures Below(xs[i], c.elems[i])
      {
        BelowTransitive(xs[i], b.elems[i], c.elems[i]);
      }
    case Maybe(x) => BelowTransitive(x, b.inner, c.inner);
    case IndexMap(m) =>
      forall k | k in c.entries
        ensures Below(m[k], c.entries[k])
      {
        BelowTransitive(m[k], b.entries[k], c.entries[k]);
      }
    case _ =>
  }

  lemma {:induction false} BelowAntisymmetric(a: Lattice, b: Lattice)
    requires Below(a, b) && Below(b, a)
    ensures a == b
    decreases a
  {
    match a
    case Tuple(xs) =>
      forall i | 0 <= i < |xs|
        ensures xs[i] == b.elems[i]
      {
        BelowAntisymmetric(xs[i], b.elems[i]);
      }
    case Maybe(x) => BelowAntisymmetric(x, b.inner);
    case IndexMap(m) =>
      forall k | k in m
        ensures m[k] == b.entries[k]
      {
        BelowAntisymmetric(m[k], b.entries[k]);
      }
      assert m == b.entries;
    case _ =>
  }

  // ---------- The join ----------

  /** The join; in an index map an index that is missing or cannot be joined is dropped. */
  function Join(a: Lattice, b: Lattice): Option<Lattice>
    decreases a
  {
    match a
    case Bool(x) => if b.Bool? then Some(Bool(x || b.flag)) else None
    case Singleton(x) => if b.Singleton? && x == b.value then Some(a) else None
    case EqualitySingleton(x) => if b.EqualitySingleton? && x == b.columns then Some(a) else None
    case BitSet(x) => if b.BitSet? then Some(BitSet(x + b.bits)) else None
    case Ordinal(s, x) => if b.Ordinal? && s == b.scalar then Some(if x >= b.n then a else b) else None
    case FieldTp(x) =>
      if !b.FieldTp? then None
      else if x == b.tp then Some(a)
      else if IsIntegerType(x) && IsIntegerType(b.tp) then Some(if CompareMySQLIntegerType(x, b.tp) < 0 then b else a)
      else if IsTypeBlob(x) && IsTypeBlob(b.tp) then Some(if CompareMySQLBlobType(x, b.tp) < 0 then b else a)
      else None
    case Tuple(xs) =>
      if !b.Tuple? || |xs| != |b.elems| || exists i :: 0 <= i < |xs| && Join(xs[i], b.elems[i]).None? then None
      else Some(Tuple(seq(|xs|, i requires 0 <= i < |xs| => Join(xs[i], b.elems[i]).value)))
    case MaybeNil => if b.MaybeNil? || b.Maybe? then Some(b) else None
    case Maybe(x) =>
      if b.MaybeNil? then Some(a)
      else if !b.Maybe? || Join(x, b.inner).None? then None
      else Some(Maybe(Join(x, b.inner).value))
    case StringList(xs) =>
      if !b.StringList? then None else if xs <= b.list then Some(b) else if b.list <= xs then Some(a) else None
    case IndexMap(m) =>
      if !b.IndexMap? then None
      else Some(IndexMap(map k | k in m && k in b.entries && Join(m[k], b.entries[k]).Some? :: Join(m[k], b.entries[k]).value))
  }

  /** The join is above both. */
  lemma {:induction false} JoinUpper(a: Lattice, b: Lattice)
    requires Join(a, b).Some?
    ensures Below(a, Join(a, b).value) && Below(b, Join(a, b).value)
    decreases a, 1
  {
    match a
    case Tuple(_) => TupleUpper(a, b);
    case IndexMap(_) => MapUpper(a, b);
    case Maybe(x) =>
      BelowReflexive(a);
      BelowReflexive(b);
      if b.Maybe? {
        JoinUpper(x, b.inner);
      }
    case _ =>
      BelowReflexive(a);
      BelowReflexive(b);
  }

  lemma {:induction false} TupleUpper(a: Lattice, b: Lattice)
    requires a.Tuple? && Join(a, b).Some?
    ensures Below(a, Join(a, b).value) && Below(b, Join(a, b).value)
    decreases a, 0
  {
    var js := Join(a, b).value.elems;
    forall i | 0 <= i < |a.elems|
      ensures Below(a.elems[i], js[i]) && Below(b.elems[i], js[i])
    {
      JoinUpper(a.elems[i], b.elems[i]);
    }
  }

  lemma {:induction false} MapUpper(a: Lattice, b: Lattice)
    requires a.IndexMap? && Join(a, b).Some?
    ensures Below(a, Join(a, b).value) && Below(b, Join(a, b).value)
    decreases a, 0
  {
    var js := Join(a, b).value.entries;
    forall k | k in js
      ensures Below(a.entries[k], js[k]) && Below(b.entries[k], js[k])
    {
      JoinUpper(a.entries[k], b.entries[k]);
    }
  }

  /** Whatever is above both is above the join, which then exists. */
  lemma {:induction false} JoinLeast(a: Lattice, b: Lattice, u: Lattice)
    requires Below(a, u) && Below(b, u)
    ensures Join(a, b).Some? && Below(Join(a, b).value, u)
    decreases a
  {
    match a
    case Tuple(xs) =>
      forall i | 0 <= i < |xs|
        ensures Join(xs[i], b.elems[i]).Some? && Below(Join(xs[i], b.elems[i]).value, u.elems[i])
      {
        JoinLeast(xs[i], b.elems[i], u.elems[i]);
      }
    case Maybe(x) =>
      if b.Maybe? {
        JoinLeast(x, b.inner, u.inner);
      }
    case IndexMap(m) =>
      forall k | k in u.entries
        ensures k in m && k in b.entries && Join(m[k], b.entries[k]).Some? && Below(Join(m[k], b.entries[k]).value, u.entries[k])
      {
        JoinLeast(m[k], b.entries[k], u.entries[k]);
      }
    case _ =>
  }

  predicate UpperBound(u: Lattice, a: Lattice, b: Lattice) {
    Below(a, u) && Below(b, u)
  }

  /** The join exists exactly when there is an upper bound, and is then the least one. */
  lemma {:induction false} JoinIsLeastUpperBound(a: Lattice, b: Lattice)
    ensures Join(a, b).Some? <==> exists u :: UpperBound(u, a, b)
    ensures Join(a, b).Some? ==>
              UpperBound(Join(a, b).value, a, b) && forall u :: UpperBound(u, a, b) ==> Below(Join(a, b).value, u)
  {
    if Join(a, b).Some? {
      JoinUpper(a, b);
      assert UpperBound(Join(a, b).value, a, b);
    }
    forall u | UpperBound(u, a, b)
      ensures Join(a, b).Some? && Below(Join(a, b).value, u)
    {
      JoinLeast(a, b, u);
    }
  }

  lemma {:induction false} JoinCommutes(a: Lattice, b: Lattice)
    ensures Join(a, b) == Join(b, a)
  {
    if Join(a, b).Some? {
      JoinUpper(a, b);
      JoinLeast(b, a, Join(a, b).value);
    }
    if Join(b, a).Some? {
      JoinUpper(b, a);
      JoinLeast(a, b, Join(b, a).value);
      BelowAntisymmetric(Join(a, b).value, Join(b, a).value);
    }
  }

  /** Joining with a value that may not exist. */
  function JoinAll(a: Option<Lattice>, b: Option<Lattice>): Option<Lattice> {
    if a.None? || b.None? then None else Join(a.value, b.value)
  }

  lemma {:induction false} AssociatesOneWay(a: Lattice, b: Lattice, c: Lattice)
    requires JoinAll(Join(a, b), Some(c)).Some?
    ensures JoinAll(Some(a), Join(b, c)).Some?
    ensures Below(JoinAll(Some(a), Join(b, c)).value, JoinAll(Join(a, b), Some(c)).value)
  {
    var ab := Join(a, b).value;
    var abc := Join(ab, c).value;
    JoinUpper(a, b);
    JoinUpper(ab, c);
    BelowTransitive(a, ab, abc);
    BelowTransitive(b, ab, abc);
    JoinLeast(b, c, abc);
    JoinLeast(a, Join(b, c).value, abc);
  }

  /** The join is associative, and exists in one grouping exactly when it exists in the other. */
  lemma {:induction false} JoinAssociates(a: Lattice, b: Lattice, c: Lattice)
    ensures JoinAll(Join(a, b), Some(c)) == JoinAll(Some(a), Join(b, c))
  {
    JoinCommutes(a, b);
    JoinCommutes(b, c);
    if Join(a, b).Some? {
      JoinCommutes(Join(a, b).value, c);
    }
    if Join(b, c).Some? {
      JoinCommutes(a, Join(b, c).value);
    }
    if JoinAll(Join(a, b), Some(c)).Some? {
      AssociatesOneWay(a, b, c);
    }
    if JoinAll(Some(a), Join(b, c)).Some? {
      AssociatesOneWay(c, b, a);
      if JoinAll(Join(a, b), Some(c)).Some? {
        BelowAntisymmetric(JoinAll(Join(a, b), Some(c)).value, JoinAll(Some(a), Join(b, c)).value);
      }
    }
  }

  /** Comparing and joining agree: a value is below another exactly when the other is their join. */
  lemma {:induction false} BelowIsJoin(a: Lattice, b: Lattice)
    ensures Below(a, b) <==> Join(a, b) == Some(b)
  {
    if Below(a, b) {
      BelowReflexive(b);
      JoinLeast(a, b, b);
      JoinUpper(a, b);
      BelowAntisymmetric(Join(a, b).value, b);
    } else if Join(a, b) == Some(b) {
      JoinUpper(a, b);
    }
  }

  // ---------- The loops ----------

  function CombineCompareResult(x: int, y: int): Option<int> {
    if x == y || y == 0 then Some(x) else if x == 0 then Some(y) else None
  }

  /** Combining the results of parts is comparing the parts together. */
  lemma {:induction false} CombineOrders(le: bool, ge: bool, le': bool, ge': bool)
    requires OrderOf(le, ge).Some? && OrderOf(le', ge').Some?
    ensures CombineCompareResult(OrderOf(le, ge).value, OrderOf(le', ge').value) == OrderOf(le && le', ge && ge')
  {
  }

  /** Compares two values; maps are walked in any order. */
  method Compare(a: Lattice, b: Lattice) returns (r: Option<int>)
    ensures r == Order(a, b)
    decreases a, 2
  {
    match a
    case Bool(x) =>
      if !b.Bool? {
        return None;
      }
      return Some(if x == b.flag then 0 else if x then 1 else -1);
    case Singleton(x) =>
      if !b.Singleton? || x != b.value {
        return None;
      }
      return Some(0);
    case EqualitySingleton(x) =>
      if !b.EqualitySingleton? || x != b.columns {
        return None;
      }
      return Some(0);
    case BitSet(x) =>
      if !b.BitSet? {
        return None;
      }
      SubsetByDifference(x, b.bits);
      SubsetByDifference(b.bits, x);
      return if x == b.bits then Some(0) else if x - b.bits == {} then Some(-1) else if b.bits - x == {} then Some(1) else None;
    case Ordinal(s, x) =>
      if !b.Ordinal? || s != b.scalar {
        return None;
      }
      return Some(if x == b.n then 0 else if x > b.n then 1 else -1);
    case FieldTp(x) =>
      if !b.FieldTp? {
        return None;
      }
      r := CompareFieldTp(x, b.tp);
    case Tuple(xs) =>
      if !b.Tuple? || |xs| != |b.elems| {
        return None;
      }
      r := CompareTuple(a, b);
    case MaybeNil =>
      return if b.MaybeNil? then Some(0) else if b.Maybe? then Some(-1) else None;
    case Maybe(x) =>
      if b.MaybeNil? {
        return Some(1);
      }
      if !b.Maybe? {
        return None;
      }
      r := Compare(x, b.inner);
    case StringList(xs) =>
      if !b.StringList? {
        return None;
      }
      r := CompareStringList(xs, b.list);
    case IndexMap(m) =>
      if !b.IndexMap? {
        return None;
      }
      r := CompareIndexMap(a, b);
  }

  lemma {:induction false} SubsetByDifference(x: set<nat>, y: set<nat>)
    ensures x - y == {} <==> x <= y
  {
    if x - y == {} {
      forall e | e in x
        ensures e in y
      {
        assert e !in x - y;
      }
    }
  }

  method CompareFieldTp(x: int, y: int) returns (r: Option<int>)
    ensures r == OrderOf(Widens(x, y), Widens(y, x))
  {
    TypeOrders(x, y);
    if x == y {
      return Some(0);
    }
    if IsIntegerType(x) && IsIntegerType(y) {
      return Some(CompareMySQLIntegerType(x, y));
    }
    if IsTypeBlob(x) && IsTypeBlob(y) {
      return Some(CompareMySQLBlobType(x, y));
    }
    return None;
  }

  method CompareStringList(a: seq<string>, b: seq<string>) returns (r: Option<int>)
    ensures r == OrderOf(a <= b, b <= a)
  {
    var minLen := |a|;
    if minLen > |b| {
      minLen := |b|;
    }
    for i := 0 to minLen
      invariant a[..i] == b[..i]
    {
      if a[i] != b[i] {
        return None;
      }
    }
    return Some(if |a| == |b| then 0 else if |a| < |b| then -1 else 1);
  }

  method CompareTuple(a: Lattice, b: Lattice) returns (r: Option<int>)
    requires a.Tuple? && b.Tuple? && |a.elems| == |b.elems|
    ensures r == Order(a, b)
    decreases a, 1
  {
    var result := 0;
    ghost var le, ge := true, true;
    for i := 0 to |a.elems|
      invariant le == forall k :: 0 <= k < i ==> Below(a.elems[k], b.elems[k])
      invariant ge == forall k :: 0 <= k < i ==> Below(b.elems[k], a.elems[k])
      invariant OrderOf(le, ge) == Some(result)
    {
      var res := Compare(a.elems[i], b.elems[i]);
      if res.None? {
        return None;
      }
      ghost var le', ge' := Below(a.elems[i], b.elems[i]), Below(b.elems[i], a.elems[i]);
      CombineOrders(le, ge, le', ge');
      var combined := CombineCompareResult(result, res.value);
      if combined.None? {
        return None;
      }
      result := combined.value;
      le, ge := le && le', ge && ge';
    }
    return Some(result);
  }

  /** At one key: a missing index is above every index. */
  predicate KeyBelow(a: map<string, Lattice>, b: map<string, Lattice>, k: string) {
    k !in b || (k in a && Below(a[k], b[k]))
  }

  lemma {:induction false} MapBelow(a: map<string, Lattice>, b: map<string, Lattice>)
    ensures Below(IndexMap(a), IndexMap(b)) <==> forall k :: k in a.Keys + b.Keys ==> KeyBelow(a, b, k)
  {
    if forall k :: k in a.Keys + b.Keys ==> KeyBelow(a, b, k) {
      forall k | k in b
        ensures k in a && Below(a[k], b[k])
      {
        assert KeyBelow(a, b, k);
      }
    }
  }

  /** The result at one key of the two maps. */
  method CompareAtKey(a: Lattice, b: Lattice, k: string) returns (r: Option<int>)
    requires a.IndexMap? && b.IndexMap? && k in a.entries.Keys + b.entries.Keys
    ensures r == OrderOf(KeyBelow(a.entries, b.entries, k), KeyBelow(b.entries, a.entries, k))
    decreases a, 0
  {
    if k in a.entries && k in b.entries {
      r := Compare(a.entries[k], b.entries[k]);
    } else if k in a.entries {
      r := Some(-1);
    } else {
      r := Some(1);
    }
  }

  method CompareIndexMap(a: Lattice, b: Lattice) returns (r: Option<int>)
    requires a.IndexMap? && b.IndexMap?
    ensures r == Order(a, b)
    decreases a, 1
  {
    MapBelow(a.entries, b.entries);
    MapBelow(b.entries, a.entries);
    var result := 0;
    ghost var all := a.entries.Keys + b.entries.Keys;
    ghost var le, ge := true, true;
    var todo := a.entries.Keys + b.entries.Keys;
    while todo != {}
      invariant todo <= all
      invariant le == forall k :: k in all - todo ==> KeyBelow(a.entries, b.entries, k)
      invariant ge == forall k :: k in all - todo ==> KeyBelow(b.entries, a.entries, k)
      invariant OrderOf(le, ge) == Some(result)
      decreases todo
    {
      var k :| k in todo;
      var cmpRes := CompareAtKey(a, b, k);
      if cmpRes.None? {
        return None;
      }
      ghost var le', ge' := KeyBelow(a.entries, b.entries, k), KeyBelow(b.entries, a.entries, k);
      CombineOrders(le, ge, le', ge');
      var combined := CombineCompareResult(result, cmpRes.value);
      if combined.None? {
        return None;
      }
      result := combined.value;
      le, ge := le && le', ge && ge';
      todo := todo - {k};
    }
    return Some(result);
  }

  /** Joins two values; maps are walked in any order. */
  method JoinValues(a: Lattice, b: Lattice) returns (r: Option<Lattice>)
    ensures r == Join(a, b)
    decreases a, 1
  {
    match a
    case Bool(x) =>
      return if b.Bool? then Some(Bool(x || b.flag)) else None;
    case Singleton(x) =>
      return if b.Singleton? && x == b.value then Some(a) else None;
    case EqualitySingleton(x) =>
      return if b.EqualitySingleton? && x == b.columns then Some(a) else None;
    case BitSet(x) =>
      return if b.BitSet? then Some(BitSet(x + b.bits)) else None;
    case Ordinal(s, x) =>
      if !b.Ordinal? || s != b.scalar {
        return None;
      }
      return Some(if x >= b.n then a else b);
    case FieldTp(x) =>
      if !b.FieldTp? {
        return None;
      }
      var cmp := CompareFieldTp(x, b.tp);
      return if cmp.None? then None else Some(if cmp.value < 0 then b else a);
    case Tuple(xs) =>
      if !b.Tuple? || |xs| != |b.elems| {
        return None;
      }
      r := JoinTuple(a, b);
    case MaybeNil =>
      return if b.MaybeNil? || b.Maybe? then Some(b) else None;
    case Maybe(x) =>
      if b.MaybeNil? {
        return Some(a);
      }
      if !b.Maybe? {
        return None;
      }
      var inner := JoinValues(x, b.inner);
      return if inner.None? then None else Some(Maybe(inner.value));
    case StringList(xs) =>
      if !b.StringList? {
        return None;
      }
      var cmp := CompareStringList(xs, b.list);
      return if cmp.None? then None else if cmp.value <= 0 then Some(b) else Some(a);
    case IndexMap(m) =>
      if !b.IndexMap? {
        return None;
      }
      r := JoinIndexMap(a, b);
  }

  method JoinTuple(a: Lattice, b: Lattice) returns (r: Option<Lattice>)
    requires a.Tuple? && b.Tuple? && |a.elems| == |b.elems|
    ensures r == Join(a, b)
    decreases a, 0
  {
    var result: seq<Lattice> := [];
    for i := 0 to |a.elems|
      invariant |result| == i
      invariant forall k :: 0 <= k < i ==> Join(a.elems[k], b.elems[k]) == Some(result[k])
    {
      var res := JoinValues(a.elems[i], b.elems[i]);
      if res.None? {
        return None;
      }
      result := result + [res.value];
    }
    assert forall k :: 0 <= k < |a.elems| ==> Join(a.elems[k], b.elems[k]).Some?;
    assert Join(a, b).value.elems == result;
    return Some(Tuple(result));
  }

  method JoinIndexMap(a: Lattice, b: Lattice) returns (r: Option<Lattice>)
    requires a.IndexMap? && b.IndexMap?
    ensures r == Join(a, b)
    decreases a, 0
  {
    var result: map<string, Lattice> := map[];
    ghost var goal := Join(a, b).value.entries;
    var todo := a.entries.Keys + b.entries.Keys;
    while todo != {}
      invariant todo <= a.entries.Keys + b.entries.Keys
      invariant result.Keys == goal.Keys - todo
      invariant forall k :: k in result ==> result[k] == goal[k]
      decreases todo
    {
      var k :| k in todo;
      todo := todo - {k};
      if k in a.entries && k in b.entries {
        var joinRes := JoinValues(a.entries[k], b.entries[k]);
        if joinRes.Some? {
          result := result[k := joinRes.value];
        }
      }
    }
    assert result == goal;
    return Some(IndexMap(result));
  }
}
