/** The binary heap of Go's container/heap, over a slice held as a sequence.
    Both nonceHeap and priceHeap (core/tx_list.go) are kept in order by it. */
module BinaryHeap {

  ghost predicate StrictWeakOrder<T(!new)>(less: (T, T) -> bool) {
    && (forall a :: !less(a, a))
    && (forall a, b, c :: less(a, b) && less(b, c) ==> less(a, c))
    && (forall a, b, c :: !less(a, b) && !less(b, c) ==> !less(a, c))
  }

  function Parent(i: int): int
    requires 0 < i
  {
    (i - 1) / 2
  }

  /** Entry `i` is not below its parent in the order. */
  ghost predicate Edge<T>(less: (T, T) -> bool, h: seq<T>, i: int)
    requires 0 < i < |h|
  {
    !less(h[i], h[Parent(i)])
  }

  ghost predicate IsHeap<T>(less: (T, T) -> bool, h: seq<T>) {
    forall i :: 0 < i < |h| ==> Edge(less, h, i)
  }

  function Swapped<T>(h: seq<T>, i: nat, j: nat): (r: seq<T>)
    requires i < |h| && j < |h|
    ensures multiset(r) == multiset(h)
  {
    h[i := h[j]][j := h[i]]
  }

  /** The root is a minimum of the whole heap. */
  lemma {:induction false} RootIsMinimal<T(!new)>(less: (T, T) -> bool, h: seq<T>, k: nat)
    requires StrictWeakOrder(less) && IsHeap(less, h) && k < |h|
    ensures !less(h[k], h[0])
    decreases k
  {
    if k > 0 {
      assert Edge(less, h, k);
      RootIsMinimal(less, h, Parent(k));
    }
  }

  /** What `Up` needs: only the edge above `j` may be broken. */
  ghost predicate BrokenAbove<T>(less: (T, T) -> bool, h: seq<T>, j: nat) {
    && j < |h|
    && (forall i :: 0 < i < |h| && i != j ==> Edge(less, h, i))
    && (forall i :: 0 < i < |h| && Parent(i) == j && 0 < j ==> !less(h[i], h[Parent(j)]))
  }

  /** What `Down` needs on the first `n` slots, counting only edges whose upper end is at least `lo`:
      only the edges around `i` may be broken. */
  ghost predicate BrokenAround<T>(less: (T, T) -> bool, h: seq<T>, lo: nat, i: nat, n: nat) {
    && n <= |h|
    && (forall k :: 0 < k < n && lo <= Parent(k) && k != i && Parent(k) != i ==> Edge(less, h, k))
    && (forall k :: 0 < k < n && Parent(k) == i && 0 < i && lo <= Parent(i) ==> !less(h[k], h[Parent(i)]))
  }

  method Up<T(!new)>(less: (T, T) -> bool, h: seq<T>, j0: nat) returns (r: seq<T>)
    requires StrictWeakOrder(less) && BrokenAbove(less, h, j0)
    ensures IsHeap(less, r)
    ensures multiset(r) == multiset(h) && |r| == |h|
  {
    r := h;
    var j: nat := j0;
    while 0 < j && less(r[j], r[Parent(j)])
      invariant |r| == |h| && multiset(r) == multiset(h)
      invariant BrokenAbove(less, r, j)
    {
      UpStep(less, r, j);
      r := Swapped(r, Parent(j), j);
      j := Parent(j);
    }
  }

  lemma UpStep<T(!new)>(less: (T, T) -> bool, s: seq<T>, j: nat)
    requires StrictWeakOrder(less) && BrokenAbove(less, s, j)
    requires 0 < j && less(s[j], s[Parent(j)])
    ensures BrokenAbove(less, Swapped(s, Parent(j), j), Parent(j))
  {
    var i := Parent(j);
    var r := Swapped(s, i, j);
    forall k | 0 < k < |r| && k != i ensures Edge(less, r, k) {
      if k != j { assert Edge(less, s, k); }
    }
    forall k | 0 < k < |r| && Parent(k) == i && 0 < i ensures !less(r[k], r[Parent(i)]) {
      assert Edge(less, s, i);
      if k != j { assert Edge(less, s, k); }
    }
  }

  /** The smaller of the one or two children of `i` below `n`. */
  function SmallestChild<T(!new)>(less: (T, T) -> bool, h: seq<T>, i: nat, n: nat): (j: nat)
    requires StrictWeakOrder(less) && 2 * i + 1 < n <= |h|
    ensures 0 < j < n && Parent(j) == i
    ensures forall k :: 0 < k < n && Parent(k) == i ==> !less(h[k], h[j])
  {
    assert forall k :: 0 < k < n && Parent(k) == i ==> k == 2 * i + 1 || k == 2 * i + 2;
    if 2 * i + 2 < n && less(h[2 * i + 2], h[2 * i + 1]) then 2 * i + 2 else 2 * i + 1
  }

  method Down<T(!new)>(less: (T, T) -> bool, h: seq<T>, ghost lo: nat, i0: nat, n: nat) returns (r: seq<T>, moved: bool)
    requires StrictWeakOrder(less) && BrokenAround(less, h, lo, i0, n) && lo <= i0
    ensures multiset(r) == multiset(h) && |r| == |h|
    ensures r[n..] == h[n..]
    ensures !moved ==> r == h
    ensures forall k :: 0 < k < n && lo <= Parent(k) && (k != i0 || moved) ==> Edge(less, r, k)
  {
    r := h;
    var i: nat := i0;
    while 2 * i + 1 < n
      invariant i0 <= i
      invariant |r| == |h| && multiset(r) == multiset(h) && r[n..] == h[n..]
      invariant i == i0 ==> r == h
      invariant BrokenAround(less, r, lo, i, n)
      invariant i0 < i ==> i < n && Edge(less, r, i)
      decreases n - i
    {
      var j := SmallestChild(less, r, i, n);
      if !less(r[j], r[i]) {
        break;
      }
      DownStep(less, r, lo, i, j, n);
      r := Swapped(r, i, j);
      i := j;
    }
    moved := i > i0;
  }

  /** One swap of `Down` pushes the broken spot from `i` to its smallest child `j`. */
  lemma DownStep<T(!new)>(less: (T, T) -> bool, s: seq<T>, lo: nat, i: nat, j: nat, n: nat)
    requires StrictWeakOrder(less) && BrokenAround(less, s, lo, i, n) && lo <= i
    requires 0 < j < n && Parent(j) == i && less(s[j], s[i])
    requires forall k :: 0 < k < n && Parent(k) == i ==> !less(s[k], s[j])
    ensures BrokenAround(less, Swapped(s, i, j), lo, j, n)
    ensures Edge(less, Swapped(s, i, j), j)
    ensures 0 < i && lo <= Parent(i) ==> Edge(less, Swapped(s, i, j), i)
  {
    var r := Swapped(s, i, j);
    forall k | 0 < k < n && lo <= Parent(k) && k != j && Parent(k) != j ensures Edge(less, r, k) {
      if k != i && Parent(k) != i { assert Edge(less, s, k); }
    }
    forall k | 0 < k < n && Parent(k) == j ensures !less(r[k], r[Parent(j)]) {
      assert Edge(less, s, k);
    }
  }

  method Init<T(!new)>(less: (T, T) -> bool, h: seq<T>) returns (r: seq<T>)
    requires StrictWeakOrder(less)
    ensures IsHeap(less, r)
    ensures multiset(r) == multiset(h) && |r| == |h|
  {
    r := h;
    var n := |h|;
    var i := n / 2;
    while 0 < i
      invariant 0 <= i <= n / 2
      invariant |r| == n && multiset(r) == multiset(h)
      invariant forall k :: 0 < k < n && i <= Parent(k) ==> Edge(less, r, k)
    {
      i := i - 1;
      var moved;
      r, moved := Down(less, r, i, i, n);
    }
  }

  method Push<T(!new)>(less: (T, T) -> bool, h: seq<T>, x: T) returns (r: seq<T>)
    requires StrictWeakOrder(less) && IsHeap(less, h)
    ensures IsHeap(less, r)
    ensures multiset(r) == multiset(h) + multiset{x} && |r| == |h| + 1
  {
    r := h + [x];
    forall i | 0 < i < |h| ensures Edge(less, r, i) { assert Edge(less, h, i); }
    r := Up(less, r, |h|);
  }

  method Pop<T(!new)>(less: (T, T) -> bool, h: seq<T>) returns (r: seq<T>, x: T)
    requires StrictWeakOrder(less) && IsHeap(less, h) && 0 < |h|
    ensures x == h[0]
    ensures forall k {:trigger less(h[k], x)} :: 0 <= k < |h| ==> !less(h[k], x)
    ensures IsHeap(less, r)
    ensures multiset(h) == multiset(r) + multiset{x} && |r| == |h| - 1
  {
    forall k | 0 <= k < |h| ensures !less(h[k], h[0]) { RootIsMinimal(less, h, k); }
    r, x := RemoveAt(less, h, 0);
  }

  /** heap.Remove; heap.Pop is the case `i == 0`, where the second half does nothing. */
  method RemoveAt<T(!new)>(less: (T, T) -> bool, h: seq<T>, i: nat) returns (r: seq<T>, x: T)
    requires StrictWeakOrder(less) && IsHeap(less, h) && i < |h|
    ensures x == h[i]
    ensures IsHeap(less, r)
    ensures multiset(h) == multiset(r) + multiset{x} && |r| == |h| - 1
  {
    var n := |h| - 1;
    r := h;
    if n != i {
      r := Swapped(r, i, n);
      SwapOut(less, h, i);
      ghost var s := r;
      var moved;
      r, moved := Down(less, r, 0, i, n);
      assert r[n] == r[n..][0] == s[n..][0] == h[i];
      if !moved {
        AlmostHeapPrefix(less, r, i, n);
        var front := Up(less, r[..n], i);
        assert r == r[..n] + [r[n]];
        r := front + [r[n]];
        assert r[..n] == front;
      } else {
        HeapPrefix(less, r, n);
      }
    } else {
      HeapPrefix(less, r, n);
    }
    x := r[n];
    assert r == r[..n] + [x];
    r := r[..n];
  }

  /** Swapping entry `i` with the last one breaks only the edges around `i`. */
  lemma SwapOut<T(!new)>(less: (T, T) -> bool, h: seq<T>, i: nat)
    requires StrictWeakOrder(less) && IsHeap(less, h) && i < |h| - 1
    ensures BrokenAround(less, Swapped(h, i, |h| - 1), 0, i, |h| - 1)
  {
    var n, r := |h| - 1, Swapped(h, i, |h| - 1);
    forall k | 0 < k < n && k != i && Parent(k) != i ensures Edge(less, r, k) {
      assert Edge(less, h, k);
    }
    forall k | 0 < k < n && Parent(k) == i && 0 < i ensures !less(r[k], r[Parent(i)]) {
      assert Edge(less, h, k) && Edge(less, h, i);
    }
  }

  lemma HeapPrefix<T>(less: (T, T) -> bool, r: seq<T>, n: nat)
    requires n <= |r| && forall k :: 0 < k < n ==> Edge(less, r, k)
    ensures IsHeap(less, r[..n])
  {
    forall k | 0 < k < n ensures Edge(less, r[..n], k) { assert Edge(less, r, k); }
  }

  lemma AlmostHeapPrefix<T>(less: (T, T) -> bool, r: seq<T>, i: nat, n: nat)
    requires i < n <= |r| && BrokenAround(less, r, 0, i, n)
    requires forall k :: 0 < k < n && k != i ==> Edge(less, r, k)
    ensures BrokenAbove(less, r[..n], i)
  {
    forall k | 0 < k < n && k != i ensures Edge(less, r[..n], k) { assert Edge(less, r, k); }
  }
}
