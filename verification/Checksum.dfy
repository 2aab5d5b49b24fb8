/**
 * Row counts and checksums of a key range (sync_diff_inspector/source/mysql_shard.go, sync_diff_inspector/diff.go): counts
 * add up and checksums are combined by exclusive or.  A checksum is the set of its bits that are one, so that exclusive
 * or is the symmetric difference.
 */
module Checksum {
  import opened Keys
  import opened Cover

  /** A 64-bit number, as the set of the positions of its ones. */
  type Bits = set<nat>

  function ExclusiveOr(a: Bits, b: Bits): Bits {
    (a - b) + (b - a)
  }

  /** A row as the checksum query sees it: its key in the index columns, and the checksum of its columns. */
  datatype HashedRow = HashedRow(key: RowKey, hash: Bits)

  predicate KeyWidths(rows: seq<HashedRow>, w: nat) {
    forall i :: 0 <= i < |rows| ==> |rows[i].key| == w
  }

  /** What one query returns. */
  datatype ChecksumInfo = ChecksumInfo(checksum: Bits, count: int, failed: bool)

  function Count(rows: seq<HashedRow>, iv: Interval, w: nat): nat
    requires KeyWidths(rows, w) && Width(iv, w)
  {
    if rows == [] then 0 else (if Selects(iv, rows[0].key) then 1 else 0) + Count(rows[1..], iv, w)
  }

  function Xor(rows: seq<HashedRow>, iv: Interval, w: nat): Bits
    requires KeyWidths(rows, w) && Width(iv, w)
  {
    if rows == [] then {} else ExclusiveOr(if Selects(iv, rows[0].key) then rows[0].hash else {}, Xor(rows[1..], iv, w))
  }

  lemma {:induction false} XorZero(a: Bits)
    ensures ExclusiveOr({}, a) == a && ExclusiveOr(a, {}) == a && ExclusiveOr(a, a) == {}
  {
  }

  lemma {:induction false} XorMoves(a: Bits, b: Bits, c: Bits)
    ensures ExclusiveOr(a, ExclusiveOr(b, c)) == ExclusiveOr(b, ExclusiveOr(a, c))
    ensures ExclusiveOr(ExclusiveOr(a, b), c) == ExclusiveOr(a, ExclusiveOr(b, c))
  {
  }

  // ---------- Over shards ----------

  /** The answer of one shard. */
  function Answer(rows: seq<HashedRow>, iv: Interval, w: nat): ChecksumInfo
    requires KeyWidths(rows, w) && Width(iv, w)
  {
    ChecksumInfo(Xor(rows, iv, w), Count(rows, iv, w), false)
  }

  function Total(infos: seq<ChecksumInfo>): ChecksumInfo {
    if infos == [] then ChecksumInfo({}, 0, false)
    else
      var rest := Total(infos[1..]);
      ChecksumInfo(ExclusiveOr(infos[0].checksum, rest.checksum), infos[0].count + rest.count, infos[0].failed || rest.failed)
  }

  /** Adds up the answers of the shards as they arrive. */
  method GetCountAndMd5(arrived: seq<ChecksumInfo>) returns (info: ChecksumInfo)
    ensures info == Total(arrived)
  {
    var failed, totalCount := false, 0;
    var totalChecksum: Bits := {};
    ghost var acc := ChecksumInfo({}, 0, false);
    CombineNothing(Total(arrived));
    assert arrived[0..] == arrived;
    for i := 0 to |arrived|
      invariant acc == ChecksumInfo(totalChecksum, totalCount, failed)
      invariant Combine(acc, Total(arrived[i..])) == Total(arrived)
    {
      var next := arrived[i];
      TakeFirst(acc, arrived, i);
      if !failed && next.failed {
        failed := true;
      }
      totalCount := totalCount + next.count;
      totalChecksum := ExclusiveOr(totalChecksum, next.checksum);
      acc := Combine(acc, next);
    }
    CombineNothing(acc);
    return ChecksumInfo(totalChecksum, totalCount, failed);
  }

  lemma {:induction false} CombineNothing(a: ChecksumInfo)
    ensures Combine(ChecksumInfo({}, 0, false), a) == a && Combine(a, ChecksumInfo({}, 0, false)) == a
  {
    XorZero(a.checksum);
  }

  lemma {:induction false} TakeFirst(acc: ChecksumInfo, arrived: seq<ChecksumInfo>, i: nat)
    requires i < |arrived|
    ensures Combine(acc, Total(arrived[i..])) == Combine(Combine(acc, arrived[i]), Total(arrived[i + 1..]))
  {
    assert arrived[i..][1..] == arrived[i + 1..];
    CombineAssociative(acc, arrived[i], Total(arrived[i + 1..]));
  }

  function Combine(a: ChecksumInfo, b: ChecksumInfo): ChecksumInfo {
    ChecksumInfo(ExclusiveOr(a.checksum, b.checksum), a.count + b.count, a.failed || b.failed)
  }

  lemma {:induction false} CombineAssociative(a: ChecksumInfo, b: ChecksumInfo, c: ChecksumInfo)
    ensures Combine(Combine(a, b), c) == Combine(a, Combine(b, c))
    ensures Combine(a, Combine(b, c)) == Combine(b, Combine(a, c))
  {
    XorMoves(a.checksum, b.checksum, c.checksum);
  }

  lemma {:induction false} TotalSplit(a: seq<ChecksumInfo>, x: ChecksumInfo, b: seq<ChecksumInfo>)
    ensures Total(a + [x] + b) == Combine(x, Total(a + b))
  {
    if a == [] {
      assert a + [x] + b == [x] + b && a + b == b && ([x] + b)[1..] == b;
    } else {
      assert (a + [x] + b)[1..] == a[1..] + [x] + b;
      assert (a + b)[1..] == a[1..] + b;
      TotalSplit(a[1..], x, b);
      CombineAssociative(a[0], x, Total(a[1..] + b));
    }
  }

  /** An answer somewhere in the list, and the list without it. */
  lemma {:induction false} TakeOut(b: seq<ChecksumInfo>, x: ChecksumInfo) returns (rest: seq<ChecksumInfo>)
    requires x in b
    ensures multiset(b) == multiset{x} + multiset(rest) && Total(b) == Combine(x, Total(rest))
  {
    var i :| 0 <= i < |b| && b[i] == x;
    assert b == b[..i] + [x] + b[i + 1..];
    TotalSplit(b[..i], x, b[i + 1..]);
    rest := b[..i] + b[i + 1..];
  }

  /** The total does not depend on the order in which the answers arrive. */
  lemma {:induction false} AnyOrder(a: seq<ChecksumInfo>, b: seq<ChecksumInfo>)
    requires multiset(a) == multiset(b)
    ensures Total(a) == Total(b)
    decreases |a|
  {
    if a == [] {
      assert |multiset(b)| == |b|;
    } else {
      assert a[0] in multiset(b);
      var rest := TakeOut(b, a[0]);
      assert a == [a[0]] + a[1..];
      Remove(a[1..], rest, a[0]);
      AnyOrder(a[1..], rest);
    }
  }

  lemma {:induction false} Remove(a: seq<ChecksumInfo>, b: seq<ChecksumInfo>, x: ChecksumInfo)
    requires multiset{x} + multiset(a) == multiset{x} + multiset(b)
    ensures multiset(a) == multiset(b)
  {
    forall e: ChecksumInfo
      ensures multiset(a)[e] == multiset(b)[e]
    {
      assert (multiset{x} + multiset(a))[e] == (multiset{x} + multiset(b))[e];
    }
  }

  function Answers(shards: seq<seq<HashedRow>>, iv: Interval, w: nat): seq<ChecksumInfo>
    requires Width(iv, w) && forall s :: 0 <= s < |shards| ==> KeyWidths(shards[s], w)
  {
    seq(|shards|, s requires 0 <= s < |shards| => Answer(shards[s], iv, w))
  }

  function Concat(shards: seq<seq<HashedRow>>): seq<HashedRow> {
    if shards == [] then [] else shards[0] + Concat(shards[1..])
  }

  lemma {:induction false} AnswerAppend(a: seq<HashedRow>, b: seq<HashedRow>, iv: Interval, w: nat)
    requires KeyWidths(a, w) && KeyWidths(b, w) && Width(iv, w)
    ensures KeyWidths(a + b, w) && Answer(a + b, iv, w) == Combine(Answer(a, iv, w), Answer(b, iv, w))
  {
    if a == [] {
      assert a + b == b;
      XorZero(Xor(b, iv, w));
    } else {
      assert (a + b)[1..] == a[1..] + b;
      AnswerAppend(a[1..], b, iv, w);
      var h := if Selects(iv, a[0].key) then a[0].hash else {};
      XorMoves(h, Xor(a[1..], iv, w), Xor(b, iv, w));
    }
  }

  /** The answers of the shards, whatever their order, add up to the answer over all their rows. */
  lemma {:induction false} ShardsAddUp(shards: seq<seq<HashedRow>>, arrived: seq<ChecksumInfo>, iv: Interval, w: nat)
    requires Width(iv, w) && forall s :: 0 <= s < |shards| ==> KeyWidths(shards[s], w)
    requires multiset(arrived) == multiset(Answers(shards, iv, w))
    ensures KeyWidths(Concat(shards), w) && Total(arrived) == Answer(Concat(shards), iv, w)
  {
    AnyOrder(arrived, Answers(shards, iv, w));
    InOrder(shards, iv, w);
  }

  lemma {:induction false} InOrder(shards: seq<seq<HashedRow>>, iv: Interval, w: nat)
    requires Width(iv, w) && forall s :: 0 <= s < |shards| ==> KeyWidths(shards[s], w)
    ensures KeyWidths(Concat(shards), w) && Total(Answers(shards, iv, w)) == Answer(Concat(shards), iv, w)
  {
    if shards != [] {
      assert Answers(shards, iv, w)[1..] == Answers(shards[1..], iv, w);
      InOrder(shards[1..], iv, w);
      AnswerAppend(shards[0], Concat(shards[1..]), iv, w);
    }
  }

  // ---------- What counts and checksums are ----------

  /** The positions of the rows that a range selects and that satisfy a condition. */
  function Chosen(rows: seq<HashedRow>, iv: Interval, w: nat, p: HashedRow -> bool): set<nat>
    requires KeyWidths(rows, w) && Width(iv, w)
  {
    set i: nat | i < |rows| && Selects(iv, rows[i].key) && p(rows[i])
  }

  function Shift(s: set<nat>): set<nat> {
    set i: nat | i in s :: i + 1
  }

  lemma {:induction false} ShiftSize(s: set<nat>)
    ensures |Shift(s)| == |s|
    ensures forall y: nat :: y in Shift(s) <==> y > 0 && y - 1 in s
  {
    forall y: nat | y > 0 && y - 1 in s
      ensures y in Shift(s)
    {
      assert y == (y - 1) + 1;
    }
    if |s| > 0 {
      var x: nat :| x in s;
      ShiftSize(s - {x});
      assert Shift(s) == Shift(s - {x}) + {x + 1};
    }
  }

  lemma {:induction false} ChosenFirst(rows: seq<HashedRow>, iv: Interval, w: nat, p: HashedRow -> bool)
    requires KeyWidths(rows, w) && Width(iv, w) && rows != []
    ensures |Chosen(rows, iv, w, p)| == (if Selects(iv, rows[0].key) && p(rows[0]) then 1 else 0) + |Chosen(rows[1..], iv, w, p)|
  {
    var all, rest := Chosen(rows, iv, w, p), Chosen(rows[1..], iv, w, p);
    var head: set<nat> := if Selects(iv, rows[0].key) && p(rows[0]) then {0} else {};
    ShiftSize(rest);
    forall i: nat
      ensures i in all <==> i in head + Shift(rest)
    {
      ChosenIn(rows, iv, w, p, i);
    }
    Added(all, head, Shift(rest));
  }

  lemma {:induction false} ChosenIn(rows: seq<HashedRow>, iv: Interval, w: nat, p: HashedRow -> bool, i: nat)
    requires KeyWidths(rows, w) && Width(iv, w) && rows != []
    ensures i in Chosen(rows, iv, w, p) <==>
            if i == 0 then Selects(iv, rows[0].key) && p(rows[0]) else i - 1 in Chosen(rows[1..], iv, w, p)
  {
  }

  lemma {:induction false} Added(all: set<nat>, a: set<nat>, b: set<nat>)
    requires (forall i: nat :: i in all <==> i in a + b) && a !! b
    ensures |all| == |a| + |b|
  {
    assert all == a + b;
  }

  /** The count is the number of rows that the range selects. */
  lemma {:induction false} CountIs(rows: seq<HashedRow>, iv: Interval, w: nat)
    requires KeyWidths(rows, w) && Width(iv, w)
    ensures Count(rows, iv, w) == |Chosen(rows, iv, w, r => true)|
  {
    if rows != [] {
      ChosenFirst(rows, iv, w, r => true);
      CountIs(rows[1..], iv, w);
    }
  }

  /** A bit of the checksum is one if and only if it is one in an odd number of those rows. */
  lemma {:induction false} XorIs(rows: seq<HashedRow>, iv: Interval, w: nat, bit: nat)
    requires KeyWidths(rows, w) && Width(iv, w)
    ensures bit in Xor(rows, iv, w) <==> |Chosen(rows, iv, w, (r: HashedRow) => bit in r.hash)| % 2 == 1
  {
    if rows != [] {
      ChosenFirst(rows, iv, w, (r: HashedRow) => bit in r.hash);
      XorIs(rows[1..], iv, w, bit);
    }
  }
}
