/**
 * Key tuples and how SQL compares them.
 *
 * A column value carries the text the program handles and its position under the column's collation.
 * Any countable total order embeds in the reals, so a real position loses no generality.  Equal texts
 * of one column have equal positions, and so comparing two values with `==` compares their texts;
 * two different texts may still share a position (a case-insensitive collation).
 * A row may hold NULL in a key column, and then SQL's comparison is three-valued.
 */
module Keys {
  import opened Wrappers

  datatype Value = Value(text: string, rank: real)

  type Key = seq<Value>

  /** The key columns of a row; `None` is NULL. */
  type RowKey = seq<Option<Value>>

  /** SQL's truth values. */
  datatype Tri = T | F | U

  function Not(a: Tri): Tri {
    match a
    case T => F
    case F => T
    case U => U
  }

  function And(a: Tri, b: Tri): Tri {
    if a == F || b == F then F else if a == U || b == U then U else T
  }

  function Or(a: Tri, b: Tri): Tri {
    if a == T || b == T then T else if a == U || b == U then U else F
  }

  function Truth(b: bool): Tri { if b then T else F }

  /** `row > k` in lexicographic order, as the disjunction over column prefixes evaluates it. */
  function After(row: RowKey, k: Key): Tri
    requires |row| == |k|
  {
    if k == [] then F
    else if row[0].None? then U
    else if row[0].value.rank > k[0].rank then T
    else if row[0].value.rank < k[0].rank then F
    else After(row[1..], k[1..])
  }

  /** The row that holds exactly the key `k`, which has no NULL. */
  function AsRow(k: Key): (row: RowKey)
    ensures |row| == |k| && NonNull(row)
  {
    seq(|k|, i requires 0 <= i < |k| => Some(k[i]))
  }

  predicate NonNull(row: RowKey) {
    forall i :: 0 <= i < |row| ==> row[i].Some?
  }

  /** `a <= b` lexicographically by collation position. */
  predicate LexLeq(a: Key, b: Key)
    requires |a| == |b|
  {
    if a == [] then true
    else a[0].rank < b[0].rank || (a[0].rank == b[0].rank && LexLeq(a[1..], b[1..]))
  }

  lemma {:induction false} AfterNonNull(row: RowKey, k: Key)
    requires |row| == |k| && NonNull(row)
    ensures After(row, k) != U
  {
    if k != [] {
      AfterNonNull(row[1..], k[1..]);
    }
  }

  /** A row decided against a bound is decided the same way against every bound further out. */
  lemma {:induction false} AfterMonotone(row: RowKey, a: Key, b: Key)
    requires |row| == |a| == |b| && LexLeq(a, b)
    ensures After(row, b) == T ==> After(row, a) == T
    ensures After(row, a) == F ==> After(row, b) == F
  {
    if a != [] {
      if a[0].rank == b[0].rank {
        AfterMonotone(row[1..], a[1..], b[1..]);
      }
    }
  }

  /** On key tuples without NULL, `After` is the strict lexicographic order. */
  lemma {:induction false} AfterIsLex(a: Key, b: Key)
    requires |a| == |b|
    ensures After(AsRow(a), b) == Truth(!LexLeq(a, b))
  {
    if a != [] {
      assert AsRow(a)[1..] == AsRow(a[1..]);
      AfterIsLex(a[1..], b[1..]);
    }
  }

  lemma {:induction false} LexTotal(a: Key, b: Key)
    requires |a| == |b|
    ensures LexLeq(a, b) || LexLeq(b, a)
    ensures LexLeq(a, a)
  {
    if a != [] {
      LexTotal(a[1..], b[1..]);
    }
  }

  lemma {:induction false} LexLeqTransitive(a: Key, b: Key, c: Key)
    requires |a| == |b| == |c|
    requires LexLeq(a, b) && LexLeq(b, c)
    ensures LexLeq(a, c)
  {
    if a != [] && a[0].rank == b[0].rank == c[0].rank {
      LexLeqTransitive(a[1..], b[1..], c[1..]);
    }
  }
}
