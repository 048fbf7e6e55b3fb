/** txSortedMap (core/tx_list.go): a nonce-indexed map with a heap of its nonces and a cached sorted form. */
module SortedMap {
  import opened Basics
  import opened Transactions
  import Heap = BinaryHeap

  predicate NonceLess(a: nat, b: nat) {
    a < b
  }

  lemma NonceOrder()
    ensures Heap.StrictWeakOrder(NonceLess)
  {
  }

  /** `s` lists every transaction of `m` once, in some order. */
  ghost predicate Enumerates(s: seq<Tx>, m: Items) {
    && |s| == |m|
    && (forall i :: 0 <= i < |s| ==> s[i].nonce in m && m[s[i].nonce] == s[i])
    && (forall n :: n in m ==> m[n] in s)
  }

  /** The index is a duplicate-free min-heap over exactly the item keys. */
  ghost predicate IndexOk(index: seq<nat>, items: Items) {
    Heap.IsHeap(NonceLess, index) && multiset(index) == multiset(items.Keys)
  }

  lemma IndexElements(index: seq<nat>, items: Items)
    requires IndexOk(index, items)
    ensures Elements(index) == items.Keys
  {
    forall n ensures n in index <==> n in items {
      assert n in multiset(index) <==> n in multiset(items.Keys);
    }
  }

  lemma IndexFacts(index: seq<nat>, items: Items)
    requires IndexOk(index, items)
    ensures |index| == |items|
    ensures |index| > 0 ==> IsMin(items.Keys, index[0])
  {
    assert |multiset(index)| == |index| && |multiset(items.Keys)| == |items.Keys|;
    IndexElements(index, items);
    if |index| > 0 {
      NonceOrder();
      assert index[0] in Elements(index);
      forall n | n in items ensures index[0] <= n {
        assert n in Elements(index);
        var k :| 0 <= k < |index| && index[k] == n;
        Heap.RootIsMinimal(NonceLess, index, k);
      }
    }
  }

  lemma IndexPop(index: seq<nat>, rest: seq<nat>, items: Items, nonce: nat)
    requires multiset(index) == multiset(items.Keys) && nonce in items
    requires Heap.IsHeap(NonceLess, rest) && multiset(index) == multiset(rest) + multiset{nonce}
    ensures IndexOk(rest, items - {nonce})
  {
    assert multiset((items - {nonce}).Keys) == multiset(items.Keys) - multiset{nonce};
  }

  lemma {:induction false} AscendingMultiset(s: seq<nat>)
    requires Ascending(s)
    ensures multiset(s) == multiset(Elements(s))
  {
    if s != [] {
      var last := |s| - 1;
      AscendingMultiset(s[..last]);
      assert s == s[..last] + [s[last]];
      assert Elements(s) == Elements(s[..last]) + {s[last]};
      assert s[last] !in Elements(s[..last]);
    }
  }

  class TxSortedMap {
    var items: Items
    var index: seq<nat>
    var cache: Option<seq<Tx>>

    ghost predicate Valid()
      reads this
    {
      && Keyed(items)
      && IndexOk(index, items)
      && (cache.Some? ==> cache.value == Sorted(items))
    }

    constructor ()
      ensures Valid() && items == map[]
    {
      items, index, cache := map[], [], None;
    }

    method Get(nonce: nat) returns (r: Option<Tx>)
      ensures r == if nonce in items then Some(items[nonce]) else None
    {
      r := if nonce in items then Some(items[nonce]) else None;
    }

    method Put(tx: Tx)
      requires Valid()
      modifies this
      ensures Valid()
      ensures items == old(items)[tx.nonce := tx] && cache == None
    {
      NonceOrder();
      if tx.nonce !in items {
        index := Heap.Push(NonceLess, index, tx.nonce);
      }
      items, cache := items[tx.nonce := tx], None;
      assert items.Keys == old(items).Keys + {tx.nonce};
    }

    method PopMin() returns (nonce: nat)
      requires IndexOk(index, items) && |index| > 0
      modifies this
      ensures nonce == old(index)[0] && nonce in old(items)
      ensures items == old(items) - {nonce} && cache == old(cache)
      ensures IndexOk(index, items) && |index| == |old(index)| - 1
    {
      NonceOrder();
      IndexFacts(index, items);
      index, nonce := Heap.Pop(NonceLess, index);
      IndexPop(old(index), index, items, nonce);
      items := items - {nonce};
    }

    method Forward(threshold: nat) returns (removed: seq<Tx>)
      requires Valid()
      modifies this
      ensures Valid()
      ensures items == AtLeast(old(items), threshold)
      ensures removed == Sorted(Below(old(items), threshold))
      ensures cache.Some? == old(cache).Some?
    {
      hide Sorted, AtLeast, Below, Forwarded, IndexOk, IsMin, Keyed;
      removed := [];
      ghost var was := items;
      ghost var b: nat := 0;
      ForwardStart(items);
      while |index| > 0 && index[0] < threshold
        invariant IndexOk(index, items) && cache == old(cache) && b <= threshold
        invariant Forwarded(was, b, items, removed)
        decreases |index|
      {
        IndexFacts(index, items);
        Advance(was, b, items, removed, index[0]);
        b := index[0] + 1;
        removed := removed + [items[index[0]]];
        var nonce := PopMin();
      }
      IndexFacts(index, items);
      ForwardDone(was, b, items, removed, threshold);
      if cache.Some? {
        cache := Some(cache.value[|removed|..]);
      }
    }

    method Reheap()
      modifies this
      ensures items == old(items) && cache == None
      ensures IndexOk(index, items)
    {
      index := [];
      var rest := items.Keys;
      while rest != {}
        invariant items == old(items) && rest <= items.Keys
        invariant multiset(index) == multiset(items.Keys - rest)
        decreases rest
      {
        var nonce :| nonce in rest;
        index := index + [nonce];
        assert items.Keys - (rest - {nonce}) == (items.Keys - rest) + {nonce};
        rest := rest - {nonce};
      }
      assert items.Keys - rest == items.Keys;
      NonceOrder();
      index := Heap.Init(NonceLess, index);
      cache := None;
    }

    /** `filter`: leaves the index stale, to be followed by `Reheap`. */
    method FilterRaw(p: Tx -> bool) returns (removed: seq<Tx>)
      requires Keyed(items)
      modifies this
      ensures items == Reject(old(items), p) && index == old(index)
      ensures Enumerates(removed, Select(old(items), p))
      ensures cache == if removed == [] then old(cache) else None
    {
      removed := [];
      var rest := items.Keys;
      ghost var gone: Items := map[];
      assert items == KeptSoFar(items, rest, p) && gone == GoneSoFar(items, rest, p);
      while rest != {}
        invariant index == old(index) && cache == old(cache) && rest <= old(items).Keys
        invariant items == KeptSoFar(old(items), rest, p) && gone == GoneSoFar(old(items), rest, p)
        invariant Enumerates(removed, gone)
        decreases rest
      {
        var nonce :| nonce in rest;
        FilterStep(old(items), rest, p, nonce);
        rest := rest - {nonce};
        var tx := items[nonce];
        if p(tx) {
          EnumeratesMore(removed, gone, tx);
          removed := removed + [tx];
          gone := gone[nonce := tx];
          items := items - {nonce};
        }
      }
      assert items == Reject(old(items), p);
      assert gone == Select(old(items), p);
      if |removed| > 0 {
        cache := None;
      }
    }

    method Filter(p: Tx -> bool) returns (removed: seq<Tx>)
      requires Valid()
      modifies this
      ensures Valid()
      ensures items == Reject(old(items), p)
      ensures Enumerates(removed, Select(old(items), p))
    {
      removed := FilterRaw(p);
      if |removed| > 0 {
        Reheap();
      } else {
        assert items == old(items) by {
          assert forall n :: n in old(items) ==> n !in Select(old(items), p);
        }
      }
    }

    /** Keeps the `threshold` lowest nonces; the rest come back highest first. */
    method Cap(threshold: nat) returns (drops: seq<Tx>)
      requires Valid()
      modifies this
      ensures Valid()
      ensures items == Lowest(old(items), threshold)
      ensures |drops| == if threshold <= |old(items)| then |old(items)| - threshold else 0
      ensures HighestFirst(drops, Sorted(old(items)))
      ensures cache.Some? == old(cache).Some?
    {
      hide Sorted, SortedKeys, Lowest, Heap.IsHeap, Keyed, HighestFirst, Elements, Heap.StrictWeakOrder;
      IndexFacts(index, items);
      IndexElements(index, items);
      if |items| <= threshold {
        LowestAll(items, threshold);
        drops := [];
        assert HighestFirst(drops, Sorted(items)) by { NoDrops(Sorted(items)); }
        return;
      }
      var sorted := SortNonces(Elements(index));
      drops := DropAbove(sorted, threshold);
      DropDone(old(items), sorted, threshold, items, drops);
      CapDone(old(items), sorted, threshold);
      NonceOrder();
      index := Heap.Init(NonceLess, sorted[..threshold]);
      if cache.Some? {
        cache := Some(cache.value[..|cache.value| - |drops|]);
      }
    }

    /** The loop of `Cap`: deletes from the highest nonce down. */
    method DropAbove(sorted: seq<nat>, threshold: nat) returns (drops: seq<Tx>)
      requires sorted == SortedKeys(items.Keys) && threshold <= |sorted|
      modifies this`items
      ensures Dropped(old(items), sorted, threshold, items, drops)
    {
      hide Sorted, SortedKeys, Dropped, HighestFirst, Elements;
      drops := [];
      var size := |sorted|;
      ghost var was := items;
      DropStart(was, sorted);
      while size > threshold
        invariant threshold <= size <= |sorted|
        invariant Dropped(was, sorted, size, items, drops)
      {
        drops := DropNonce(sorted, size, drops, was);
        size := size - 1;
      }
    }

    /** One turn of the loop. */
    method DropNonce(sorted: seq<nat>, size: nat, drops: seq<Tx>, ghost was: Items) returns (more: seq<Tx>)
      requires sorted == SortedKeys(was.Keys) && 0 < size <= |sorted| && Dropped(was, sorted, size, items, drops)
      modifies this`items
      ensures Dropped(was, sorted, size - 1, items, more)
    {
      hide Sorted, SortedKeys, Dropped, HighestFirst, Elements;
      DropOne(was, sorted, size, items, drops);
      var nonce := sorted[size - 1];
      more := drops + [items[nonce]];
      items := items - {nonce};
    }

    method Remove(nonce: nat) returns (found: bool)
      requires Valid()
      modifies this
      ensures Valid()
      ensures found == (nonce in old(items))
      ensures items == old(items) - {nonce}
    {
      if nonce !in items {
        return false;
      }
      IndexElements(index, items);
      assert nonce in Elements(index);
      var i := 0;
      while index[i] != nonce
        invariant 0 <= i < |index|
        invariant nonce !in index[..i]
        decreases |index| - i
      {
        assert nonce in index;
        assert index[..i + 1] == index[..i] + [index[i]];
        assert index[..|index|] == index;
        i := i + 1;
      }
      NonceOrder();
      var x;
      index, x := Heap.RemoveAt(NonceLess, index, i);
      IndexPop(old(index), index, items, nonce);
      items, cache := items - {nonce}, None;
      return true;
    }

    /** Takes out the longest run of consecutive nonces from the lowest one, if that is not above `start`. */
    method Ready(start: nat) returns (ready: seq<Tx>)
      requires Valid()
      modifies this
      ensures Valid()
      ensures items == old(items) - ReadyRun(old(items), start).Keys
      ensures ready == Sorted(ReadyRun(old(items), start))
    {
      hide Sorted, Consecutive, ReadyRun, Forwarded, IndexOk, IsMin, Min, Keyed;
      IndexFacts(index, items);
      if |index| == 0 || index[0] > start {
        NothingReady(items, start);
        return [];
      }
      ready := [];
      var next := index[0];
      ghost var lo := next;
      ghost var was := items;
      RunStart(items, lo);
      while |index| > 0 && index[0] == next
        invariant IndexOk(index, items) && lo <= next
        invariant Consecutive(was, lo, next)
        invariant Forwarded(was, next, items, ready)
        decreases |index|
      {
        IndexFacts(index, items);
        Advance(was, next, items, ready, next);
        RunStep(was, lo, next);
        ready := ready + [items[next]];
        var nonce := PopMin();
        next := next + 1;
      }
      IndexFacts(index, items);
      RunIs(was, start, lo, next, items, ready);
      cache := None;
    }

    method Flatten() returns (txs: seq<Tx>)
      requires Valid()
      modifies this`cache
      ensures Valid()
      ensures txs == Sorted(items)
    {
      if cache == None {
        var sorted := SortByNonce(items);
        cache := Some(sorted);
      }
      txs := cache.value;
    }

    method Last() returns (tx: Tx)
      requires Valid() && items != map[]
      modifies this`cache
      ensures Valid()
      ensures tx in items.Values && forall n :: n in items ==> n <= tx.nonce
    {
      var txs := Flatten();
      LastIsHighest(items);
      assert |items| > 0;
      tx := txs[|txs| - 1];
    }
  }

  lemma EmptySorted(items: Items)
    requires items == map[]
    ensures Sorted(items) == []
  {
  }

  /** `removed` is what `was` holds below `b`, in order, and `items` is the rest. */
  ghost predicate Forwarded(was: Items, b: nat, items: Items, removed: seq<Tx>) {
    items == AtLeast(was, b) && removed == Sorted(Below(was, b))
  }

  /** Popping the least nonce `m` moves the boundary past it. */
  lemma Advance(was: Items, b: nat, items: Items, removed: seq<Tx>, m: nat)
    requires Forwarded(was, b, items, removed) && IsMin(items.Keys, m)
    ensures m in was && b <= m
    ensures Forwarded(was, m + 1, items - {m}, removed + [items[m]])
  {
    hide Sorted;
    var one: Items := map[m := was[m]];
    assert forall n :: n in was && b <= n ==> n in items.Keys;
    assert Below(was, m + 1).Keys == Below(was, b).Keys + {m};
    SortedSplit(Below(was, m + 1), Below(was, b), one);
    SortedOne(m, was[m]);
  }

  lemma SortedOne(m: nat, tx: Tx)
    ensures Sorted(map[m := tx]) == [tx]
  {
    var one: Items := map[m := tx];
    assert Elements([m]) == {m} == one.Keys;
    SortedIs(one, [m]);
  }

  lemma ForwardStart(items: Items)
    ensures Forwarded(items, 0, items, [])
  {
    EmptySorted(Below(items, 0));
  }

  lemma ForwardDone(was: Items, b: nat, items: Items, removed: seq<Tx>, t: nat)
    requires Forwarded(was, b, items, removed)
    requires b <= t && (items == map[] || exists m :: IsMin(items.Keys, m) && t <= m)
    ensures Forwarded(was, t, items, removed)
    ensures items == AtLeast(was, t) && removed == Sorted(Below(was, t))
    ensures Keyed(was) ==> Keyed(items)
    ensures |removed| <= |Sorted(was)| && Sorted(was)[|removed|..] == Sorted(items)
  {
    hide Sorted;
    assert forall n :: n in was && b <= n ==> n in items.Keys;
    assert items == AtLeast(was, t);
    assert Below(was, b) == Below(was, t);
    SortedSplit(was, Below(was, t), AtLeast(was, t));
  }

  ghost function KeptSoFar(was: Items, rest: set<nat>, p: Tx -> bool): Items {
    map n | n in was && (n in rest || !p(was[n])) :: was[n]
  }

  ghost function GoneSoFar(was: Items, rest: set<nat>, p: Tx -> bool): Items {
    map n | n in was && n !in rest && p(was[n]) :: was[n]
  }

  lemma FilterStep(was: Items, rest: set<nat>, p: Tx -> bool, nonce: nat)
    requires nonce in rest && nonce in was
    ensures nonce in KeptSoFar(was, rest, p) && nonce !in GoneSoFar(was, rest, p)
    ensures p(was[nonce]) ==>
      && KeptSoFar(was, rest - {nonce}, p) == KeptSoFar(was, rest, p) - {nonce}
      && GoneSoFar(was, rest - {nonce}, p) == GoneSoFar(was, rest, p)[nonce := was[nonce]]
    ensures !p(was[nonce]) ==>
      && KeptSoFar(was, rest - {nonce}, p) == KeptSoFar(was, rest, p)
      && GoneSoFar(was, rest - {nonce}, p) == GoneSoFar(was, rest, p)
  {
  }

  lemma EnumeratesMore(s: seq<Tx>, m: Items, tx: Tx)
    requires Enumerates(s, m) && tx.nonce !in m
    ensures Enumerates(s + [tx], m[tx.nonce := tx])
  {
    var more := m[tx.nonce := tx];
    assert more.Keys == m.Keys + {tx.nonce};
    forall n | n in more ensures more[n] in s + [tx] {
      if n != tx.nonce { assert m[n] in s; }
    }
  }

  /** Sorting a set of nonces (the standard library's sort). */
  method SortNonces(s: set<nat>) returns (r: seq<nat>)
    ensures r == SortedKeys(s)
  {
    r := [];
    var rest := s;
    while rest != {}
      invariant rest <= s && Ascending(r) && Elements(r) == s - rest
      invariant forall n, m :: n in Elements(r) && m in rest ==> n < m
      decreases rest
    {
      MinExists(rest);
      var m :| m in rest && forall k :: k in rest ==> m <= k;
      ghost var was := r;
      r := r + [m];
      assert Elements(r) == Elements(was) + {m};
      assert forall i :: 0 <= i < |was| ==> was[i] in Elements(was);
      rest := rest - {m};
    }
    AscendingUnique(r, SortedKeys(s));
  }

  method SortByNonce(items: Items) returns (r: seq<Tx>)
    ensures r == Sorted(items)
  {
    var keys := SortNonces(items.Keys);
    assert forall n :: n in keys ==> n in Elements(keys);
    r := Pick(items, keys);
  }

  lemma NothingReady(items: Items, start: nat)
    requires items == map[] || exists m :: IsMin(items.Keys, m) && start < m
    ensures items == items - ReadyRun(items, start).Keys && Sorted(ReadyRun(items, start)) == []
  {
    EmptySorted(ReadyRun(items, start));
  }

  /** `drops` is the end of `all`, read backwards. */
  ghost predicate HighestFirst(drops: seq<Tx>, all: seq<Tx>) {
    |drops| <= |all| && forall i :: 0 <= i < |drops| ==> drops[i] == all[|all| - 1 - i]
  }

  lemma NoDrops(all: seq<Tx>)
    ensures HighestFirst([], all)
  {
  }

  ghost predicate Consecutive(items: Items, lo: nat, next: nat) {
    forall k :: lo <= k < next ==> k in items
  }

  /** The sorted form lists every entry once. */
  lemma SortedEnumerates(items: Items)
    requires Keyed(items)
    ensures Enumerates(Sorted(items), items)
    ensures forall i :: 0 <= i < |items| ==> Sorted(items)[i].nonce == SortedKeys(items.Keys)[i]
  {
    var keys := SortedKeys(items.Keys);
    assert forall i :: 0 <= i < |keys| ==> keys[i] in Elements(keys);
    forall n | n in items ensures items[n] in Sorted(items) {
      assert n in Elements(keys);
      var i :| 0 <= i < |keys| && keys[i] == n;
      assert Sorted(items)[i] == items[n];
    }
  }

  lemma RunStart(items: Items, lo: nat)
    requires IsMin(items.Keys, lo)
    ensures Consecutive(items, lo, lo) && Forwarded(items, lo, items, [])
  {
    EmptySorted(Below(items, lo));
  }

  lemma RunStep(items: Items, lo: nat, next: nat)
    requires Consecutive(items, lo, next) && next in items
    ensures Consecutive(items, lo, next + 1)
  {
  }

  lemma RunIs(was: Items, start: nat, lo: nat, next: nat, items: Items, ready: seq<Tx>)
    requires IsMin(was.Keys, lo) && lo <= start && lo <= next && Consecutive(was, lo, next)
    requires Forwarded(was, next, items, ready)
    requires items == map[] || exists m :: IsMin(items.Keys, m) && next != m
    ensures items == was - ReadyRun(was, start).Keys && ready == Sorted(ReadyRun(was, start))
    ensures Keyed(was) ==> Keyed(items)
  {
    hide Sorted;
    assert lo == Min(was.Keys);
    assert next in was ==> next in items;
    forall n | n in was ensures InRun(was, lo, n) <==> n < next {
      if next <= n {
        assert !InRun(was, lo, n);
      }
    }
    assert ReadyRun(was, start) == Below(was, next);
  }

  lemma LowestAll(items: Items, k: nat)
    requires |items| <= k
    ensures Lowest(items, k) == items
  {
    forall n | n in items ensures Rank(items, n) < k {
      RankBound(items, n);
    }
    hide Rank;
  }

  lemma RankBound(items: Items, n: nat)
    requires n in items
    ensures Rank(items, n) < |items|
  {
    var below := Below(items, n).Keys;
    assert items.Keys == below + (items.Keys - below) && n in items.Keys - below;
  }

  /** The nonces from place `size` of the sorted order on have been dropped, highest first. */
  ghost predicate Dropped(was: Items, sorted: seq<nat>, size: nat, items: Items, drops: seq<Tx>)
    requires size <= |sorted|
  {
    && items == was - Elements(sorted[size..])
    && |drops| == |sorted| - size
    && HighestFirst(drops, Sorted(was))
  }

  lemma DropStart(was: Items, sorted: seq<nat>)
    requires sorted == SortedKeys(was.Keys)
    ensures Dropped(was, sorted, |sorted|, was, [])
  {
    assert Elements(sorted[|sorted|..]) == {};
  }

  lemma DropOne(was: Items, sorted: seq<nat>, size: nat, items: Items, drops: seq<Tx>)
    requires sorted == SortedKeys(was.Keys) && 0 < size <= |sorted|
    requires Dropped(was, sorted, size, items, drops)
    ensures sorted[size - 1] in items
    ensures Dropped(was, sorted, size - 1, items - {sorted[size - 1]}, drops + [items[sorted[size - 1]]])
  {
    var nonce := sorted[size - 1];
    LastKept(sorted, size);
    hide Elements;
    assert Sorted(was)[size - 1] == was[nonce];
    hide Sorted, SortedKeys;
    WithoutMore(was, Elements(sorted[size..]), nonce);
  }

  lemma LastKept(sorted: seq<nat>, size: nat)
    requires Ascending(sorted) && 0 < size <= |sorted|
    ensures var nonce := sorted[size - 1];
      && nonce in Elements(sorted) && nonce !in Elements(sorted[size..])
      && Elements(sorted[size - 1..]) == Elements(sorted[size..]) + {nonce}
  {
    assert sorted[size - 1..] == [sorted[size - 1]] + sorted[size..];
  }

  lemma WithoutMore(was: Items, gone: set<nat>, n: nat)
    ensures was - (gone + {n}) == (was - gone) - {n}
  {
  }

  lemma DropDone(was: Items, sorted: seq<nat>, threshold: nat, items: Items, drops: seq<Tx>)
    requires threshold <= |sorted| && Dropped(was, sorted, threshold, items, drops)
    ensures items == was - Elements(sorted[threshold..])
    ensures |drops| == |sorted| - threshold && HighestFirst(drops, Sorted(was))
  {
  }

  lemma CutIsLowest(items: Items, sorted: seq<nat>, k: nat)
    requires sorted == SortedKeys(items.Keys) && k <= |sorted|
    ensures items - Elements(sorted[k..]) == Lowest(items, k)
    ensures Lowest(items, k).Keys == Elements(sorted[..k])
  {
    LowestKeys(items, k);
    SplitElements(sorted, k);
    var cut := items - Elements(sorted[k..]);
    assert cut.Keys == Elements(sorted[..k]);
    SameEntries(items, cut, Lowest(items, k));
  }

  lemma CapDone(items: Items, sorted: seq<nat>, k: nat)
    requires sorted == SortedKeys(items.Keys) && k <= |sorted|
    ensures items - Elements(sorted[k..]) == Lowest(items, k)
    ensures multiset(sorted[..k]) == multiset(Lowest(items, k).Keys)
    ensures Keyed(items) ==> Keyed(Lowest(items, k))
    ensures Sorted(items)[..k] == Sorted(Lowest(items, k))
  {
    CutIsLowest(items, sorted, k);
    AscendingMultiset(sorted[..k]);
    LowestSplit(items, k);
  }

  lemma SameEntries(items: Items, a: Items, b: Items)
    requires a.Keys == b.Keys <= items.Keys
    requires forall n :: n in a ==> a[n] == items[n]
    requires forall n :: n in b ==> b[n] == items[n]
    ensures a == b
  {
  }

  lemma SplitElements(s: seq<nat>, k: nat)
    requires Ascending(s) && k <= |s|
    ensures Elements(s) == Elements(s[..k]) + Elements(s[k..])
    ensures Elements(s[..k]) !! Elements(s[k..])
  {
    assert s == s[..k] + s[k..];
    forall n | n in Elements(s[..k]) ensures n !in Elements(s[k..]) {
      var i :| 0 <= i < k && s[i] == n;
    }
  }

  lemma LowestSplit(items: Items, k: nat)
    requires k <= |items|
    ensures Sorted(Lowest(items, k)) == Sorted(items)[..k]
  {
    var low := Lowest(items, k);
    LowestFacts(items, k);
    SortedSplit(items, low, items - low.Keys);
  }

  lemma LastIsHighest(items: Items)
    requires items != map[] && Keyed(items)
    ensures |items| > 0
    ensures var tx := Sorted(items)[|items| - 1]; tx in items.Values && forall n :: n in items ==> n <= tx.nonce
  {
    var keys := SortedKeys(items.Keys);
    assert |keys| > 0 by {
      var n :| n in items;
      assert n in Elements(keys);
    }
    assert keys[|keys| - 1] in Elements(keys);
    forall n | n in items ensures n <= keys[|keys| - 1] {
      assert n in Elements(keys);
      var i :| 0 <= i < |keys| && keys[i] == n;
    }
  }
}
