/**
 * The binary heap the program gets from Go's container/heap, on a slice that grows and shrinks.  The checkpoint
 * (sync_diff_inspector/checkpoints/checkpoints.go) and the shard merge (sync_diff_inspector/source/mysql_shard.go) use it
 * with their own orders.
 */
module Heaps {
  type Order<!T> = (T, T) -> bool

  /** Irreflexive and transitive, and so is "not less". */
  ghost predicate StrictWeak<T(!new)>(less: Order<T>) {
    && (forall a: T :: !less(a, a))
    && (forall a: T, b: T, c: T :: less(a, b) && less(b, c) ==> less(a, c))
    && (forall a: T, b: T, c: T :: !less(a, b) && !less(b, c) ==> !less(a, c))
  }

  function Parent(i: nat): nat
    requires i > 0
  {
    (i - 1) / 2
  }

  /** Nothing is less than its parent. */
  predicate IsHeap<T(!new)>(h: seq<T>, less: Order<T>) {
    forall i :: 0 < i < |h| ==> !less(h[i], h[Parent(i)])
  }

  /** Nothing in the multiset is less than `x`. */
  ghost predicate Minimal<T(!new)>(x: T, m: multiset<T>, less: Order<T>) {
    forall y: T :: y in m ==> !less(y, x)
  }

  /** A heap but for the element at `j`, which may be less than its parent. */
  ghost predicate AllBut<T(!new)>(h: seq<T>, less: Order<T>, j: nat) {
    && (forall i :: 0 < i < |h| && i != j ==> !less(h[i], h[Parent(i)]))
    && (j > 0 ==> forall i :: 0 < i < |h| && Parent(i) == j && j < |h| ==> !less(h[i], h[Parent(j)]))
  }

  /** The first `n` elements form a heap but for the element at `i`, which some child may be less than. */
  ghost predicate SinksAt<T(!new)>(h: seq<T>, less: Order<T>, n: nat, i: nat)
    requires n <= |h|
  {
    && (forall k :: 0 < k < n && Parent(k) != i ==> !less(h[k], h[Parent(k)]))
    && (i > 0 ==> forall k :: 0 < k < n && Parent(k) == i && i < n ==> !less(h[k], h[Parent(i)]))
  }

  function Swapped<T>(h: seq<T>, i: nat, j: nat): (r: seq<T>)
    requires i < |h| && j < |h|
    ensures |r| == |h| && r[i] == h[j] && r[j] == h[i]
    ensures forall k :: 0 <= k < |h| && k != i && k != j ==> r[k] == h[k]
    ensures multiset(r) == multiset(h)
  {
    h[i := h[j]][j := h[i]]
  }

  /** The root of a heap is minimal. */
  lemma {:induction false} RootAt<T(!new)>(h: seq<T>, less: Order<T>, i: nat)
    requires StrictWeak(less) && IsHeap(h, less) && i < |h|
    ensures !less(h[i], h[0])
  {
    if i > 0 {
      RootAt(h, less, Parent(i));
    }
  }

  lemma {:induction false} RootMinimal<T(!new)>(h: seq<T>, less: Order<T>)
    requires StrictWeak(less) && IsHeap(h, less) && h != []
    ensures h[0] in multiset(h) && Minimal(h[0], multiset(h), less)
  {
    forall y: T | y in multiset(h)
      ensures !less(y, h[0])
    {
      var i :| 0 <= i < |h| && h[i] == y;
      RootAt(h, less, i);
    }
  }

  /** One step up keeps the rest in order. */
  lemma {:induction false} UpStep<T(!new)>(h: seq<T>, less: Order<T>, j: nat)
    requires StrictWeak(less) && 0 < j < |h| && AllBut(h, less, j) && less(h[j], h[Parent(j)])
    ensures AllBut(Swapped(h, Parent(j), j), less, Parent(j))
  {
    var i := Parent(j);
    var r := Swapped(h, i, j);
    forall k | 0 < k < |r| && k != i
      ensures !less(r[k], r[Parent(k)])
    {
      if k != j && Parent(k) == i {
        assert !less(h[k], h[i]);
      }
    }
    if i > 0 {
      forall k | 0 < k < |r| && Parent(k) == i
        ensures !less(r[k], r[Parent(i)])
      {
        assert !less(h[i], h[Parent(i)]);
        if k != j {
          assert !less(h[k], h[i]);
        }
      }
    }
  }

  method Up<T(!new)>(h: seq<T>, less: Order<T>, start: nat) returns (r: seq<T>)
    requires StrictWeak(less) && start < |h| && AllBut(h, less, start)
    ensures IsHeap(r, less) && multiset(r) == multiset(h)
  {
    r := h;
    var j := start;
    while j > 0 && less(r[j], r[(j - 1) / 2])
      invariant 0 <= j < |r| && AllBut(r, less, j) && multiset(r) == multiset(h)
    {
      UpStep(r, less, j);
      r := Swapped(r, (j - 1) / 2, j);
      j := (j - 1) / 2;
    }
  }

  /** Appends and moves up. */
  method Push<T(!new)>(h: seq<T>, x: T, less: Order<T>) returns (r: seq<T>)
    requires StrictWeak(less) && IsHeap(h, less)
    ensures IsHeap(r, less) && multiset(r) == multiset(h) + multiset{x}
  {
    r := Up(h + [x], less, |h|);
  }

  /** Exchanging the sinking element with its smaller child keeps the rest in order. */
  lemma {:induction false} DownStep<T(!new)>(h: seq<T>, less: Order<T>, n: nat, i: nat, j: nat)
    requires StrictWeak(less) && n <= |h| && SinksAt(h, less, n, i)
    requires 0 < j < n && Parent(j) == i && less(h[j], h[i])
    requires forall k :: 0 < k < n && Parent(k) == i ==> !less(h[k], h[j])
    ensures SinksAt(Swapped(h, i, j), less, n, j)
  {
    var r := Swapped(h, i, j);
    forall k | 0 < k < n && Parent(k) != j
      ensures !less(r[k], r[Parent(k)])
    {
      if k == j {
        assert less(h[j], h[i]);
      } else if k == i {
        assert !less(h[j], h[Parent(i)]);
      }
    }
    forall k | 0 < k < n && Parent(k) == j
      ensures !less(r[k], r[i])
    {
      assert !less(h[k], h[j]);
    }
  }

  /** Where no child is less than the sinking element, the first `n` elements are a heap again. */
  lemma {:induction false} Settled<T(!new)>(h: seq<T>, less: Order<T>, n: nat, i: nat)
    requires n <= |h| && SinksAt(h, less, n, i)
    requires forall k :: 0 < k < n && Parent(k) == i ==> !less(h[k], h[i])
    ensures IsHeap(h[..n], less)
  {
    forall k | 0 < k < n
      ensures !less(h[..n][k], h[..n][Parent(k)])
    {
      if Parent(k) != i {
        assert !less(h[k], h[Parent(k)]);
      }
    }
  }

  predicate SameFrom<T(==)>(r: seq<T>, h: seq<T>, n: nat) {
    |r| == |h| && forall k :: n <= k < |h| ==> r[k] == h[k]
  }

  /** Moves the root of the first `n` elements down to its place. */
  method Down<T(!new,==)>(h: seq<T>, less: Order<T>, n: nat) returns (r: seq<T>)
    requires StrictWeak(less) && n <= |h| && SinksAt(h, less, n, 0)
    ensures SameFrom(r, h, n) && IsHeap(r[..n], less) && multiset(r) == multiset(h)
  {
    r := h;
    var i: nat := 0;
    while 2 * i + 1 < n
      invariant SameFrom(r, h, n) && SinksAt(r, less, n, i) && multiset(r) == multiset(h)
      decreases n - i
    {
      var j := 2 * i + 1;
      if 2 * i + 2 < n && less(r[2 * i + 2], r[2 * i + 1]) {
        j := 2 * i + 2;
      }
      SmallerChild(r, less, n, i, j);
      if !less(r[j], r[i]) {
        break;
      }
      DownStep(r, less, n, i, j);
      r := Swapped(r, i, j);
      i := j;
    }
    Settled(r, less, n, i);
  }

  /** Among two children, the chosen one is not greater than the other; if it does not go up, neither does. */
  lemma {:induction false} SmallerChild<T(!new)>(h: seq<T>, less: Order<T>, n: nat, i: nat, j: nat)
    requires StrictWeak(less) && n <= |h| && 2 * i + 1 < n
    requires j == if 2 * i + 2 < n && less(h[2 * i + 2], h[2 * i + 1]) then 2 * i + 2 else 2 * i + 1
    ensures forall k :: 0 < k < n && Parent(k) == i ==> !less(h[k], h[j])
    ensures !less(h[j], h[i]) ==> forall k :: 0 < k < n && Parent(k) == i ==> !less(h[k], h[i])
  {
    forall k | 0 < k < n && Parent(k) == i
      ensures !less(h[k], h[j])
    {
      assert k == 2 * i + 1 || k == 2 * i + 2;
    }
  }

  /** Takes the root out. */
  method Pop<T(!new,==)>(h: seq<T>, less: Order<T>) returns (x: T, r: seq<T>)
    requires StrictWeak(less) && IsHeap(h, less) && h != []
    ensures x == h[0] && Minimal(x, multiset(h), less)
    ensures IsHeap(r, less) && multiset(r) == multiset(h) - multiset{x} && |r| == |h| - 1
  {
    RootMinimal(h, less);
    var n := |h| - 1;
    var swapped := Swapped(h, 0, n);
    var down := Down(swapped, less, n);
    x, r := down[n], down[..n];
    assert down == r + [x];
  }
}
