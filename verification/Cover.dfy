/**
 * How often a row is selected by a list of key intervals in which each interval starts where the one before it ended.
 * Every chunk producer of the program emits such a list, fresh or resumed.  Without NULL the answer is once, unless the
 * list turns back; with NULL it can be never.
 */
module Cover {
  import opened Wrappers
  import opened Keys

  /** The rows after `lower` and up to `upper`; `None` leaves that side open. */
  datatype Interval = Interval(lower: Option<Key>, upper: Option<Key>)

  predicate Width(iv: Interval, w: nat) {
    (iv.lower.Some? ==> |iv.lower.value| == w) && (iv.upper.Some? ==> |iv.upper.value| == w)
  }

  /** The row is past the lower end, with an open end before every row. */
  function Past(lower: Option<Key>, row: RowKey): Tri
    requires lower.Some? ==> |lower.value| == |row|
  {
    if lower.None? then T else After(row, lower.value)
  }

  /** The row is past the upper end, with an open end after every row. */
  function Beyond(upper: Option<Key>, row: RowKey): Tri
    requires upper.Some? ==> |upper.value| == |row|
  {
    if upper.None? then F else After(row, upper.value)
  }

  predicate Selects(iv: Interval, row: RowKey)
    requires Width(iv, |row|)
  {
    Past(iv.lower, row) == T && Beyond(iv.upper, row) == F
  }

  predicate Widths(ivs: seq<Interval>, w: nat) {
    forall i :: 0 <= i < |ivs| ==> Width(ivs[i], w)
  }

  /** The number of intervals that select the row. */
  function Hits(ivs: seq<Interval>, row: RowKey): nat
    requires Widths(ivs, |row|)
  {
    if ivs == [] then 0
    else (if Selects(ivs[0], row) then 1 else 0) + Hits(ivs[1..], row)
  }

  /** Each interval starts where the one before it ended. */
  predicate Chain(ivs: seq<Interval>) {
    forall i :: 0 <= i < |ivs| - 1 ==> ivs[i].upper.Some? && ivs[i + 1].lower == ivs[i].upper
  }

  predicate Ordered(iv: Interval) {
    iv.lower.Some? && iv.upper.Some? ==>
      |iv.lower.value| == |iv.upper.value| && LexLeq(iv.lower.value, iv.upper.value)
  }

  predicate AllOrdered(ivs: seq<Interval>) {
    forall i :: 0 <= i < |ivs| ==> Ordered(ivs[i])
  }

  function Outer(ivs: seq<Interval>): Interval
    requires ivs != []
  {
    Interval(ivs[0].lower, ivs[|ivs| - 1].upper)
  }

  /** No interior end agrees with the row up to the row's first NULL. */
  predicate Decided(ivs: seq<Interval>, row: RowKey)
    requires Widths(ivs, |row|)
  {
    forall i :: 0 <= i < |ivs| - 1 ==> Beyond(ivs[i].upper, row) != U
  }

  lemma {:induction false} HitsAppend(a: seq<Interval>, b: seq<Interval>, row: RowKey)
    requires Widths(a, |row|) && Widths(b, |row|)
    ensures Widths(a + b, |row|)
    ensures Hits(a + b, row) == Hits(a, row) + Hits(b, row)
  {
    if a == [] {
      assert a + b == b;
    } else {
      assert (a + b)[1..] == a[1..] + b;
      HitsAppend(a[1..], b, row);
    }
  }

  /** A chain that never turns back goes from its lower end to its upper end without turning back. */
  lemma {:induction false} OuterOrdered(ivs: seq<Interval>, w: nat)
    requires ivs != [] && Widths(ivs, w) && Chain(ivs) && AllOrdered(ivs)
    ensures Ordered(Outer(ivs))
    decreases |ivs|
  {
    if |ivs| > 1 {
      var tail := ivs[1..];
      OuterOrdered(tail, w);
      assert Ordered(ivs[0]) && tail[0].lower == ivs[0].upper && Width(ivs[0], w) && Width(tail[|tail| - 1], w);
      if ivs[0].lower.Some? && Outer(tail).upper.Some? {
        LexLeqTransitive(ivs[0].lower.value, ivs[0].upper.value, Outer(tail).upper.value);
      }
    }
  }

  /** Past the end of an ordered chain's first interval, every later end is decided the same way. */
  lemma {:induction false} StaysBefore(ivs: seq<Interval>, row: RowKey, j: nat)
    requires Widths(ivs, |row|) && Chain(ivs) && AllOrdered(ivs)
    requires 0 <= j < |ivs| && Beyond(ivs[0].upper, row) == F
    ensures Beyond(ivs[j].upper, row) == F
  {
    if j > 0 {
      StaysBefore(ivs, row, j - 1);
      assert ivs[j].lower == ivs[j - 1].upper;
      if ivs[j].upper.Some? {
        AfterMonotone(row, ivs[j].lower.value, ivs[j].upper.value);
      }
    }
  }

  /**
   * An ordered chain selects a row of its outer interval exactly once, unless some interior end agrees
   * with the row up to the row's first NULL: then no interval selects it.
   */
  lemma {:induction false} ChainSelects(ivs: seq<Interval>, row: RowKey)
    requires ivs != [] && Widths(ivs, |row|) && Chain(ivs) && AllOrdered(ivs)
    ensures Hits(ivs, row) == if Selects(Outer(ivs), row) && Decided(ivs, row) then 1 else 0
  {
    if |ivs| == 1 {
      assert ivs[1..] == [];
    } else {
      var tail := ivs[1..];
      assert forall i :: 0 <= i < |tail| ==> tail[i] == ivs[i + 1];
      ChainSelects(tail, row);
      var u := ivs[0].upper.value;
      assert tail[0].lower == Some(u);
      if ivs[0].lower.Some? {
        AfterMonotone(row, ivs[0].lower.value, u);
      }
      if After(row, u) == F {
        forall j | 0 <= j < |ivs|
          ensures Beyond(ivs[j].upper, row) == F
        {
          StaysBefore(ivs, row, j);
        }
        assert Decided(ivs, row);
      } else {
        assert Decided(ivs, row) <==> After(row, u) != U && Decided(tail, row);
      }
    }
  }

  /** With both outer ends open: an ordered chain selects every row without NULL exactly once. */
  lemma {:induction false} WholeChainOnce(ivs: seq<Interval>, row: RowKey)
    requires ivs != [] && Widths(ivs, |row|) && Chain(ivs) && AllOrdered(ivs)
    requires Outer(ivs) == Interval(None, None)
    ensures Hits(ivs, row) == if Decided(ivs, row) then 1 else 0
    ensures NonNull(row) ==> Hits(ivs, row) == 1
  {
    ChainSelects(ivs, row);
    if NonNull(row) {
      forall i | 0 <= i < |ivs| - 1
        ensures Beyond(ivs[i].upper, row) != U
      {
        AfterNonNull(row, ivs[i].upper.value);
      }
    }
  }

  /** Ordered or not, a chain that starts before a row without NULL and ends after it selects it. */
  lemma {:induction false} ChainReaches(ivs: seq<Interval>, row: RowKey)
    requires ivs != [] && Widths(ivs, |row|) && Chain(ivs) && NonNull(row)
    requires Selects(Outer(ivs), row)
    ensures Hits(ivs, row) >= 1
  {
    if |ivs| > 1 {
      var tail := ivs[1..];
      AfterNonNull(row, ivs[0].upper.value);
      if After(row, ivs[0].upper.value) == T {
        ChainReaches(tail, row);
      }
    }
  }

  /** A chain that turns back at some end selects the row sitting on that end twice. */
  lemma {:induction false} TurningBackDoubles(ivs: seq<Interval>, w: nat, i: nat)
    requires Widths(ivs, w) && Chain(ivs) && ivs != []
    requires Outer(ivs) == Interval(None, None)
    requires i < |ivs| && !Ordered(ivs[i])
    ensures Hits(ivs, AsRow(ivs[i].lower.value)) >= 2
  {
    var lo, hi := ivs[i].lower.value, ivs[i].upper.value;
    var row := AsRow(lo);
    AfterIsLex(lo, lo);
    AfterIsLex(lo, hi);
    LexTotal(lo, lo);
    var before, after := ivs[..i], ivs[i + 1..];
    assert before != [] && before[i - 1].upper == Some(lo);
    assert after != [] && after[0].lower == Some(hi);
    ChainReaches(before, row);
    ChainReaches(after, row);
    assert ivs == before + [ivs[i]] + after;
    HitsAppend(before, [ivs[i]], row);
    HitsAppend(before + [ivs[i]], after, row);
  }

  /**
   * For a chain with both outer ends open: it selects every row without NULL exactly once if and only
   * if it never turns back.
   */
  lemma {:induction false} OnceIffOrdered(ivs: seq<Interval>, w: nat)
    requires ivs != [] && Widths(ivs, w) && Chain(ivs)
    requires Outer(ivs) == Interval(None, None)
    ensures AllOrdered(ivs) <==> forall row: RowKey | |row| == w && NonNull(row) :: Hits(ivs, row) == 1
  {
    if AllOrdered(ivs) {
      forall row: RowKey | |row| == w && NonNull(row)
        ensures Hits(ivs, row) == 1
      {
        WholeChainOnce(ivs, row);
      }
    } else {
      var i :| 0 <= i < |ivs| && !Ordered(ivs[i]);
      TurningBackDoubles(ivs, w, i);
    }
  }
}
