/** truncateQueue (core/tx_pool.go): drops queued transactions of the most recently active accounts first. */
module QueueTruncation {
  import opened Basics
  import opened Transactions
  import opened Lookup
  import opened PoolContent
  import opened TxPools
  import opened PoolTruncation
  import SortedMap

  function BeatOf(beats: map<Address, nat>, a: Address): nat {
    if a in beats then beats[a] else 0
  }

  /** The accounts of `s`, each once, by increasing heartbeat. */
  ghost predicate BeatOrder(order: seq<Address>, s: set<Address>, beats: map<Address, nat>) {
    && NoDup(order) && Elements(order) == s
    && forall i, j :: 0 <= i < j < |order| ==> BeatOf(beats, order[i]) <= BeatOf(beats, order[j])
  }

  /** Sorting the accounts by heartbeat (the standard library's sort). */
  method SortByBeat(s: set<Address>, beats: map<Address, nat>) returns (order: seq<Address>)
    ensures BeatOrder(order, s, beats)
  {
    order := [];
    var rest := s;
    while rest != {}
      invariant rest <= s && BeatOrder(order, s - rest, beats)
      invariant forall a, b :: a in order && b in rest ==> BeatOf(beats, a) <= BeatOf(beats, b)
      decreases rest
    {
      var x := Oldest(rest, beats);
      OrderGrows(order, s, rest, beats, x);
      order := order + [x];
      rest := rest - {x};
    }
  }

  method Oldest(s: set<Address>, beats: map<Address, nat>) returns (x: Address)
    requires s != {}
    ensures x in s && forall b :: b in s ==> BeatOf(beats, x) <= BeatOf(beats, b)
  {
    x :| x in s;
    var rest := s - {x};
    while rest != {}
      invariant x in s && rest <= s && forall b :: b in s && b !in rest ==> BeatOf(beats, x) <= BeatOf(beats, b)
      decreases rest
    {
      var b :| b in rest;
      rest := rest - {b};
      if BeatOf(beats, b) < BeatOf(beats, x) {
        x := b;
      }
    }
  }

  lemma OrderGrows(order: seq<Address>, s: set<Address>, rest: set<Address>, beats: map<Address, nat>, x: Address)
    requires rest <= s && x in rest && BeatOrder(order, s - rest, beats)
    requires forall a :: a in order ==> BeatOf(beats, a) <= BeatOf(beats, x)
    ensures BeatOrder(order + [x], s - (rest - {x}), beats)
  {
    MoreOffenders(order, x);
    var more := order + [x];
    forall i, j | 0 <= i < j < |more| ensures BeatOf(beats, more[i]) <= BeatOf(beats, more[j]) {
      assert order[i] in order;
    }
  }

  // ---------- Dropping from one account ----------

  lemma LowestLess(items: Items, k: nat)
    requires Keyed(items) && 0 < k <= |items|
    ensures var tx := Sorted(items)[k - 1];
      && tx.nonce in items && items[tx.nonce] == tx
      && Lowest(items, k) - {tx.nonce} == Lowest(items, k - 1) && tx.nonce in Lowest(items, k)
  {
    hide Lowest, Below, AtLeast, Rank;
    var keys := SortedKeys(items.Keys);
    LastEntry(items, k);
    LowestKeys(items, k);
    LowestKeys(items, k - 1);
    LastKey(keys, k);
    LowestValues(items, k);
    LowestValues(items, k - 1);
    WithoutKey(Lowest(items, k), Lowest(items, k - 1), items, keys[k - 1]);
  }

  lemma LastEntry(items: Items, k: nat)
    requires Keyed(items) && 0 < k <= |items|
    ensures k <= |SortedKeys(items.Keys)| && k <= |Sorted(items)|
    ensures var tx := Sorted(items)[k - 1];
      tx.nonce in items && items[tx.nonce] == tx && tx.nonce == SortedKeys(items.Keys)[k - 1]
  {
    SortedMap.SortedEnumerates(items);
    var keys := SortedKeys(items.Keys);
    assert keys[k - 1] in Elements(keys);
  }

  lemma WithoutKey(more: Items, less: Items, items: Items, n: nat)
    requires Within(more, items) && Within(less, items) && more.Keys - {n} == less.Keys
    ensures more - {n} == less
  {
  }

  lemma LowestValues(items: Items, k: nat)
    ensures Within(Lowest(items, k), items)
  {
  }

  lemma LastKey(keys: seq<nat>, k: nat)
    requires Ascending(keys) && 0 < k <= |keys|
    ensures keys[k - 1] in Elements(keys[..k])
    ensures Elements(keys[..k]) - {keys[k - 1]} == Elements(keys[..k - 1])
  {
    assert keys[..k] == keys[..k - 1] + [keys[k - 1]];
    assert Elements(keys[..k]) == Elements(keys[..k - 1]) + {keys[k - 1]};
    assert keys[k - 1] !in Elements(keys[..k - 1]);
  }

  /** Where a queued transaction is found by its hash. */
  lemma QueuedIsKnown(p: Lists, q: Lists, all: ByHash, a: Address, tx: Tx)
    requires ContentOk(p, q, all) && Listed(ItemsOf(q, a), tx)
    ensures tx.from == a && tx.hash in all && all[tx.hash] == tx && !Listed(ItemsOf(p, a), tx)
    ensures Keyed(ItemsOf(q, a))
  {
    assert AccountOk(a, ItemsOf(p, a), ItemsOf(q, a), all);
  }

  /** Removes the `count` highest nonces of one account's queue. */
  method DropHighest(pool: TxPool, a: Address, count: nat, now: nat)
    requires pool.Valid() && a in pool.queue && count <= |pool.queue[a].items|
    modifies pool`pending, pool`queue, pool`beats, pool`pendingNonces, pool.all, pool.priced
    ensures pool.Valid() && pool.pending == old(pool.pending) && pool.pendingNonces == old(pool.pendingNonces)
    ensures pool.queue - {a} == old(pool.queue) - {a}
    ensures ItemsOf(pool.queue, a) == Lowest(old(pool.queue)[a].items, |old(pool.queue)[a].items| - count)
  {
    hide TxPool.LookupOk, ContentOk, ListsOk, TxLookup.All, Lowest, Sorted, Listed, Below, AtLeast;
    var items := pool.queue[a].items;
    QueueKeyed(pool.pending, pool.queue, pool.all.All(), a);
    var txs := SortedMap.SortByNonce(items);
    SortedMap.LowestAll(items, |items|);
    var k := |items|;
    while k > |items| - count
      invariant |items| - count <= k <= |items|
      invariant pool.Valid() && pool.pending == old(pool.pending) && pool.pendingNonces == old(pool.pendingNonces)
      invariant pool.queue - {a} == old(pool.queue) - {a}
      invariant ItemsOf(pool.queue, a) == Lowest(items, k)
    {
      LowestLess(items, k);
      var tx := txs[k - 1];
      StillListed(items, k, tx);
      QueuedIsKnown(pool.pending, pool.queue, pool.all.All(), a, tx);
      pool.RemoveTx(tx.hash, true, now);
      k := k - 1;
    }
  }

  lemma QueueKeyed(p: Lists, q: Lists, all: ByHash, a: Address)
    requires ContentOk(p, q, all) && a in q
    ensures ItemsOf(q, a) == q[a].items && Keyed(q[a].items)
  {
    assert AccountOk(a, ItemsOf(p, a), ItemsOf(q, a), all);
  }

  lemma StillListed(items: Items, k: nat, tx: Tx)
    requires tx.nonce in items && items[tx.nonce] == tx && tx.nonce in Lowest(items, k)
    ensures Listed(Lowest(items, k), tx)
  {
  }

  // ---------- The loop over the accounts ----------

  lemma TotalSplit(lists: Lists, a: Address)
    ensures TotalLen(lists) == Len(lists, a) + TotalLen(lists - {a})
  {
    if a in lists {
      TotalLenMinus(lists, a);
    } else {
      assert lists - {a} == lists;
    }
  }

  /** The accounts after position `k` have lost everything, the one at `k` all but its `m` lowest nonces, the rest nothing. */
  ghost predicate CutFrom(q0: Lists, q: Lists, order: seq<Address>, k: nat, m: nat) {
    && k <= |order|
    && (forall i :: k <= i < |order| ==> ItemsOf(q, order[i]) == (if i == k then Lowest(ItemsOf(q0, order[i]), m) else map[]))
    && (forall a :: a !in Elements(order[k..]) ==> ItemsOf(q, a) == ItemsOf(q0, a))
  }

  lemma CutStart(q0: Lists, order: seq<Address>)
    ensures CutFrom(q0, q0, order, |order|, 0)
  {
  }

  lemma NothingLeft(items: Items)
    ensures Lowest(items, 0) == map[]
  {
    LowestFacts(items, 0);
  }

  lemma CutNext(q0: Lists, q: Lists, q': Lists, order: seq<Address>, k: nat, m: nat)
    requires NoDup(order) && CutFrom(q0, q, order, k, 0) && k > 0
    requires ItemsOf(q', order[k - 1]) == Lowest(ItemsOf(q0, order[k - 1]), m)
    requires q' - {order[k - 1]} == q - {order[k - 1]}
    ensures CutFrom(q0, q', order, k - 1, m)
  {
    hide Lowest;
    var x := order[k - 1];
    forall a | a != x ensures ItemsOf(q', a) == ItemsOf(q, a) {
      OthersSame(q, q', x, a);
    }
    hide ItemsOf;
    forall i | k <= i < |order| ensures ItemsOf(q', order[i]) == map[] {
      NothingLeft(ItemsOf(q0, order[i]));
    }
    assert order[k - 1..] == [x] + order[k..];
    assert Elements(order[k - 1..]) == {x} + Elements(order[k..]);
  }

  lemma OthersSame(q: Lists, q': Lists, x: Address, a: Address)
    requires q' - {x} == q - {x} && a != x
    ensures ItemsOf(q', a) == ItemsOf(q, a)
  {
    assert a in q <==> a in q - {x};
    assert a in q' <==> a in q' - {x};
    assert a in q ==> (q - {x})[a] == q[a];
    assert a in q' ==> (q' - {x})[a] == q'[a];
  }

  lemma {:induction false} PartTotal(part: Lists, lists: Lists)
    requires forall a :: a in part ==> ItemsOf(part, a) == ItemsOf(lists, a)
    ensures TotalLen(part) <= TotalLen(lists)
    decreases |part|
  {
    if part != map[] {
      var a :| a in part;
      forall b | b in part - {a} ensures ItemsOf(part - {a}, b) == ItemsOf(lists - {a}, b) {
        assert ItemsOf(part, b) == ItemsOf(lists, b);
      }
      PartTotal(part - {a}, lists - {a});
      assert ItemsOf(part, a) == ItemsOf(lists, a);
      hide TotalLen;
      TotalSplit(part, a);
      TotalSplit(lists, a);
    }
  }

  /** The lists of the local accounts. */
  function Only(lists: Lists, locals: set<Address>): Lists {
    map a | a in lists && a in locals :: lists[a]
  }

  lemma LocalsStay(q0: Lists, q: Lists, locals: set<Address>, order: seq<Address>, k: nat, m: nat)
    requires Elements(order) == q0.Keys - locals && CutFrom(q0, q, order, k, m)
    ensures TotalLen(Only(q0, locals)) <= TotalLen(q)
  {
    forall a | a in Only(q0, locals) ensures ItemsOf(Only(q0, locals), a) == ItemsOf(q, a) {
      assert a !in Elements(order);
      assert a !in Elements(order[k..]);
    }
    PartTotal(Only(q0, locals), q);
  }

  lemma OnlyLocalsLeft(q0: Lists, q: Lists, locals: set<Address>, order: seq<Address>)
    requires Elements(order) == q0.Keys - locals && CutFrom(q0, q, order, 0, 0) && ListsOk(q, false)
    ensures TotalLen(q) <= TotalLen(Only(q0, locals)) && q.Keys <= locals
  {
    forall a | a in q ensures a in locals && ItemsOf(q, a) == ItemsOf(Only(q0, locals), a) {
      assert order[0..] == order;
      if a in Elements(order) {
        var i :| 0 <= i < |order| && order[i] == a;
        NothingLeft(ItemsOf(q0, a));
      }
    }
    PartTotal(q, Only(q0, locals));
  }

  function Max(a: nat, b: nat): nat { if a < b then b else a }

  lemma NextAccount(q0: Lists, q: Lists, order: seq<Address>, k: nat)
    requires NoDup(order) && CutFrom(q0, q, order, k, 0) && 0 < k
    requires order[k - 1] in q0 && ListsOk(q0, false)
    ensures order[k - 1] in q && q[order[k - 1]].items == ItemsOf(q0, order[k - 1])
  {
    assert order[k - 1] !in Elements(order[k..]);
  }

  /** What a cut of one account does to the total. */
  lemma TotalCut(q: Lists, q': Lists, a: Address, kept: nat)
    requires q' - {a} == q - {a} && ItemsOf(q', a) == Lowest(ItemsOf(q, a), kept) && kept <= Len(q, a)
    ensures TotalLen(q') == TotalLen(q) - Len(q, a) + kept
  {
    hide TotalLen;
    LowestFacts(ItemsOf(q, a), kept);
    TotalSplit(q, a);
    TotalSplit(q', a);
  }

  /** Over the limit, queued transactions go from the accounts with the newest heartbeats. */
  method TruncateQueue(pool: TxPool, now: nat) returns (ghost order: seq<Address>, ghost k: nat, ghost m: nat)
    requires pool.Valid()
    modifies pool`pending, pool`queue, pool`beats, pool`pendingNonces, pool.all, pool.priced
    ensures pool.Valid() && pool.pending == old(pool.pending) && pool.pendingNonces == old(pool.pendingNonces)
    ensures BeatOrder(order, old(pool.queue).Keys - pool.locals, old(pool.beats))
    ensures CutFrom(old(pool.queue), pool.queue, order, k, m)
    ensures TotalLen(pool.queue) ==
      if old(TotalLen(pool.queue)) <= pool.config.globalQueue then old(TotalLen(pool.queue))
      else Max(pool.config.globalQueue, TotalLen(Only(old(pool.queue), pool.locals)))
    ensures TotalLen(pool.queue) > pool.config.globalQueue ==> pool.queue.Keys <= pool.locals
  {
    hide TxPool.LookupOk, ContentOk, TxLookup.All, Lowest, CutFrom, TotalLen, Elements, Only, ItemsOf;
    ghost var q0 := pool.queue;
    var queued := CountAll(pool.queue);
    var byBeat := SortByBeat(pool.queue.Keys - pool.locals, pool.beats);
    order, k, m := byBeat, |byBeat|, 0;
    CutStart(q0, order);
    if queued <= pool.config.globalQueue {
      return;
    }
    var drop := queued - pool.config.globalQueue;
    var i := |byBeat|;
    while drop > 0 && i > 0
      invariant 0 <= i <= |byBeat| && 0 <= drop && k == i
      invariant pool.Valid() && pool.pending == old(pool.pending) && pool.pendingNonces == old(pool.pendingNonces)
      invariant CutFrom(q0, pool.queue, order, k, m) && (drop > 0 ==> m == 0)
      invariant TotalLen(pool.queue) == pool.config.globalQueue + drop
    {
      var a := byBeat[i - 1];
      ghost var q := pool.queue;
      assert a in q0 by { ElementAt(order, i - 1); }
      NextAccount(q0, q, order, i);
      var size := |pool.queue[a].items|;
      var count := if size <= drop then size else drop;
      assert ItemsOf(q, a) == q[a].items && Len(q, a) == size by { InLists(q, a); }
      DropHighest(pool, a, count, now);
      m := size - count;
      TotalCut(q, pool.queue, a, m);
      CutNext(q0, q, pool.queue, order, i, m);
      drop := drop - count;
      i := i - 1;
      k := i;
    }
    LocalsStay(q0, pool.queue, pool.locals, order, k, m);
    if drop > 0 {
      OnlyLocalsLeft(q0, pool.queue, pool.locals, order);
    }
  }

  lemma InLists(q: Lists, a: Address)
    requires a in q
    ensures ItemsOf(q, a) == q[a].items && Len(q, a) == |q[a].items|
  {
  }

  lemma ElementAt(s: seq<Address>, i: nat)
    requires i < |s|
    ensures s[i] in Elements(s)
  {
  }
}
