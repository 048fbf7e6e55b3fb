/** Short runs of the transaction pool (core/tx_pool.go) that show what its limits and refusals do not promise. */
module PoolExamples {
  import opened Basics
  import opened Transactions
  import opened Lookup
  import opened PricedList
  import opened PoolContent
  import opened TxPools

  /** Enters a transaction whose nonce is free, with room for it. */
  method Enter(pool: TxPool, tx: Tx, local: bool, now: nat)
    requires pool.Valid() && pool.book(tx.hash) == tx && tx.hash !in pool.all.All() && pool.HasRoom(tx)
    requires tx.nonce !in ItemsOf(pool.pending, tx.from) && tx.nonce !in ItemsOf(pool.queue, tx.from)
    modifies pool, pool.all, pool.priced
    ensures pool.Valid() && pool.all.All() == old(pool.all.All())[tx.hash := tx] && pool.all.slots == old(pool.all.slots) + NumSlots(tx)
    ensures pool.changesSinceReorg == old(pool.changesSinceReorg)
    ensures if !local && tx.from !in old(pool.locals) then
              && pool.locals == old(pool.locals) && pool.all.remotes == old(pool.all.remotes)[tx.hash := tx]
              && pool.priced.State() == old(pool.priced.State()).(urgent := old(pool.priced.State()).urgent + multiset{tx})
            else tx.hash !in pool.all.remotes && pool.locals <= old(pool.locals) + {tx.from}
  {
    hide ContentOk, ListsOk, TxLookup.All, TxPool.LookupOk, MadeRoom, Entered, NoOldEntry, UniqueLive, SlotSum, TxPool.CheaperThanAll, TxPool.CanFree,
      SomeLive;
    ghost var before, h0, r0 := pool.all.All(), pool.priced.State(), pool.all.remotes;
    pool.LookupFacts();
    SlotSumPlus(before, tx);
    var r;
    ghost var room;
    r, room := pool.Add(tx, local, true, now);
    pool.LookupFacts();
    if !local && tx.from !in old(pool.locals) {
      EnteredNew(h0, r0, tx, pool.priced.State(), pool.all.remotes);
    }
  }

  lemma EnteredNew(before: Heaps, remotes0: ByHash, tx: Tx, after: Heaps, remotes: ByHash)
    requires Entered(before, remotes0, false, tx, after, remotes)
    ensures remotes == remotes0[tx.hash := tx] && after == before.(urgent := before.urgent + multiset{tx})
  {
    var rest := after.(urgent := after.urgent - multiset{tx});
    assert rest.urgent + multiset{tx} == after.urgent;
    assert remotes == (remotes - {tx.hash})[tx.hash := tx];
  }

  // ---------- A transaction submitted again ----------

  /** Removing a remote transaction and submitting it again leaves two live heap entries for it exactly when the removal
      does not rebuild the heaps. */
  method Resubmit(pool: TxPool, tx: Tx, now: nat)
    requires pool.Valid() && tx.hash in pool.all.remotes && pool.all.remotes[tx.hash] == tx && tx.from !in pool.locals
    requires pool.all.slots <= pool.Limit() && UniqueLive(pool.priced.Entries(), pool.all.remotes)
    modifies pool, pool.all, pool.priced
    ensures pool.Valid() && pool.all.All() == old(pool.all.All()) && pool.all.remotes == old(pool.all.remotes)
    ensures pool.priced.Entries()[tx] == if old(pool.priced.stales) + 1 <= old(|pool.priced.Entries()|) / 4 then 2 else 1
  {
    hide ContentOk, ListsOk, TxPool.LookupOk, TxLookup.All, UniqueLive, SlotSum, Listed, ItemsOf, Below, AtLeast, AfterRemoved, LowestNonce;
    ghost var p, q, all0, remotes0, h0 := pool.pending, pool.queue, pool.all.All(), pool.all.remotes, pool.priced.State();
    KnownOnce(pool, tx);
    pool.LookupFacts();
    pool.AllHashed();
    SlotSumMinus(all0, tx.hash);
    pool.RemoveTx(tx.hash, true, now);
    pool.LookupFacts();
    NonceFree(p, q, all0, pool.pending, pool.queue, tx);
    ghost var h1 := pool.priced.State();
    Enter(pool, tx, false, now);
    BackAgain(all0, tx);
    BackAgain(remotes0, tx);
    TwoEntries(h0, h1, remotes0, tx);
  }

  lemma KnownOnce(pool: TxPool, tx: Tx)
    requires pool.Valid() && tx.hash in pool.all.remotes && pool.all.remotes[tx.hash] == tx
    requires UniqueLive(pool.priced.Entries(), pool.all.remotes)
    ensures pool.book(tx.hash) == tx && tx.hash in pool.all.All() && pool.all.All()[tx.hash] == tx
    ensures pool.priced.Entries()[tx] == 1
  {
    assert Live(tx, pool.all.remotes);
  }

  lemma NonceFree(p: Lists, q: Lists, all: ByHash, p': Lists, q': Lists, tx: Tx)
    requires ContentOk(p, q, all) && Hashed(all) && tx.hash in all && all[tx.hash] == tx
    requires var P, Q := ItemsOf(p, tx.from), ItemsOf(q, tx.from);
      if Listed(P, tx) then ItemsOf(p', tx.from) == Below(P, tx.nonce) && ItemsOf(q', tx.from) == Q + AtLeast(P, tx.nonce + 1)
      else p' == p && Listed(Q, tx) && ItemsOf(q', tx.from) == Q - {tx.nonce}
    ensures tx.nonce !in ItemsOf(p', tx.from) && tx.nonce !in ItemsOf(q', tx.from)
  {
    NoncesApart(p, q, all);
  }

  lemma BackAgain(m: ByHash, tx: Tx)
    requires tx.hash in m && m[tx.hash] == tx
    ensures (m - {tx.hash})[tx.hash := tx] == m
  {
  }

  lemma TwoEntries(h0: Heaps, h1: Heaps, remotes: ByHash, tx: Tx)
    requires h0.Entries()[tx] == 1 && AfterRemoved(h0, 1, h1, remotes - {tx.hash})
    ensures h1.(urgent := h1.urgent + multiset{tx}).Entries()[tx] == if h0.stales + 1 <= |h0.Entries()| / 4 then 2 else 1
  {
  }

  // ---------- Over the slot limit ----------

  /** What every account owns, and the gas of a block. */
  const BALANCE: nat := 1_000_000
  const BLOCK_GAS: nat := 1_000_000

  /** The transaction with hash `h`, from an account of its own: a transfer of one slot each, two slots of data for
      number 5; number 1 is the cheapest, number 5 the dearest. */
  function Sample(h: Hash): (tx: Tx)
    ensures tx.gas <= BLOCK_GAS && tx.Cost() <= BALANCE
  {
    if h == 5 then Tx(h, h, 0, 3, 3, 200_000, 0, 40_000)
    else Tx(h, h, 0, if h == 1 then 1 else 2, if h == 1 then 1 else 2, 21_000, 0, 110)
  }

  function Samples(hs: set<Hash>): ByHash {
    map h | h in hs :: Sample(h)
  }

  /** The pool holds exactly these samples, all remote, in heaps that were never discarded from. */
  ghost predicate Holds(pool: TxPool, hs: set<Hash>, heaps: Heaps)
    reads pool, pool.all, pool.priced
  {
    && pool.Valid() && pool.locals == {} && pool.changesSinceReorg == 0 && (forall h :: pool.book(h) == Sample(h))
    && pool.all.All() == Samples(hs) && pool.all.remotes == Samples(hs) && pool.priced.State() == heaps
  }

  lemma NoneFrom(p: Lists, q: Lists, hs: set<Hash>, h: Hash)
    requires ContentOk(p, q, Samples(hs)) && h !in hs
    ensures 0 !in ItemsOf(p, h) && 0 !in ItemsOf(q, h)
  {
    assert AccountOk(h, ItemsOf(p, h), ItemsOf(q, h), Samples(hs));
  }

  method EnterSample(pool: TxPool, h: Hash, ghost hs: set<Hash>, ghost heaps: Heaps, ghost urgent: multiset<Tx>)
    requires Holds(pool, hs, heaps) && h !in hs && pool.HasRoom(Sample(h)) && urgent == heaps.urgent + multiset{Sample(h)}
    modifies pool, pool.all, pool.priced
    ensures Holds(pool, hs + {h}, heaps.(urgent := urgent))
    ensures pool.all.slots == old(pool.all.slots) + NumSlots(Sample(h))
  {
    hide ContentOk, ListsOk, TxPool.LookupOk, TxLookup.All, ItemsOf;
    NoneFrom(pool.pending, pool.queue, hs, h);
    Enter(pool, Sample(h), false, 0);
    assert Samples(hs)[h := Sample(h)] == Samples(hs + {h});
  }

  ghost function FullHeaps(): Heaps {
    Heaps(multiset{Sample(1), Sample(2), Sample(3), Sample(4), Sample(1)}, multiset{}, 1, None)
  }

  lemma SampleSlots(h: Hash)
    ensures NumSlots(Sample(h)) == if h == 5 then 2 else 1
  {
  }

  /** Four samples fill the pool. */
  method FillUp() returns (pool: TxPool)
    ensures fresh(pool) && fresh(pool.all) && fresh(pool.priced)
    ensures pool.config == Config(10, 1, 3, 1, 1) && pool.all.slots == 4
    ensures Holds(pool, {1, 2, 3, 4}, Heaps(multiset{Sample(1), Sample(2), Sample(3), Sample(4)}, multiset{}, 0, None))
  {
    hide Holds, Sample;
    ghost var heaps := Heaps(multiset{}, multiset{}, 0, None);
    pool := NewPool();
    EnterPair(pool, 1, 2, {}, heaps, multiset{Sample(1), Sample(2)});
    assert {} + {1, 2} == {1, 2};
    EnterPair(pool, 3, 4, {1, 2}, heaps.(urgent := multiset{Sample(1), Sample(2)}), multiset{Sample(1), Sample(2), Sample(3), Sample(4)});
    assert {1, 2} + {3, 4} == {1, 2, 3, 4};
  }

  method EnterPair(pool: TxPool, h: Hash, k: Hash, ghost hs: set<Hash>, ghost heaps: Heaps, ghost urgent: multiset<Tx>)
    requires Holds(pool, hs, heaps) && h !in hs && k !in hs && h != k && h != 5 && k != 5 && pool.all.slots + 2 <= pool.Limit()
    requires urgent == heaps.urgent + multiset{Sample(h), Sample(k)}
    modifies pool, pool.all, pool.priced
    ensures Holds(pool, hs + {h, k}, heaps.(urgent := urgent)) && pool.all.slots == old(pool.all.slots) + 2
  {
    hide TxPool.Valid, TxPool.LookupOk, TxLookup.All, NumSlots, Holds, Sample;
    SampleSlots(h);
    SampleSlots(k);
    EnterSample(pool, h, hs, heaps, heaps.urgent + multiset{Sample(h)});
    EnterSample(pool, k, hs + {h}, heaps.(urgent := heaps.urgent + multiset{Sample(h)}), urgent);
    assert hs + {h} + {k} == hs + {h, k};
  }

  /** The first sample is removed from the full pool and submitted again. */
  method FirstTwice() returns (pool: TxPool)
    ensures fresh(pool) && fresh(pool.all) && fresh(pool.priced)
    ensures pool.config == Config(10, 1, 3, 1, 1) && pool.all.slots == 4 && Holds(pool, {1, 2, 3, 4}, FullHeaps())
  {
    hide TxPool.Valid, TxPool.LookupOk, TxLookup.All, NumSlots, Holds, Sample;
    pool := FillUp();
    ghost var heaps := Heaps(multiset{Sample(1), Sample(2), Sample(3), Sample(4)}, multiset{}, 0, None);
    SampleSlots(1);
    assert heaps.Entries() == multiset([Sample(1), Sample(2), Sample(3), Sample(4)]);
    RemoveSample(pool, 1, {1, 2, 3, 4}, heaps);
    heaps := heaps.(stales := 1);
    assert {1, 2, 3, 4} - {1} == {2, 3, 4};
    EnterSample(pool, 1, {2, 3, 4}, heaps, FullHeaps().urgent);
    assert {2, 3, 4} + {1} == {1, 2, 3, 4};
  }

  method NewPool() returns (pool: TxPool)
    ensures fresh(pool) && fresh(pool.all) && fresh(pool.priced)
    ensures pool.config == Config(10, 1, 3, 1, 1) && pool.all.slots == 0 && Holds(pool, {}, Heaps(multiset{}, multiset{}, 0, None))
  {
    hide TxPool.Valid, Holds, Sample;
    pool := new TxPool(Config(10, 1, 3, 1, 1), _ => 0, _ => BALANCE, BLOCK_GAS, (h: Hash) => Sample(h));
    EmptyPool(pool, Heaps(multiset{}, multiset{}, 0, None));
  }

  lemma EmptyPool(pool: TxPool, heaps: Heaps)
    requires pool.Valid() && pool.locals == {} && pool.changesSinceReorg == 0 && (forall h :: pool.book(h) == Sample(h))
    requires pool.all.All() == map[] && pool.priced.State() == heaps
    ensures Holds(pool, {}, heaps) && pool.all.slots == 0
  {
    pool.LookupFacts();
    assert pool.all.remotes == map[];
  }

  method RemoveSample(pool: TxPool, h: Hash, ghost hs: set<Hash>, ghost heaps: Heaps)
    requires Holds(pool, hs, heaps) && h in hs && heaps.stales + 1 <= |heaps.Entries()| / 4
    modifies pool, pool.all, pool.priced
    ensures Holds(pool, hs - {h}, heaps.(stales := heaps.stales + 1))
    ensures pool.all.slots == old(pool.all.slots) - NumSlots(Sample(h))
  {
    hide ContentOk, ListsOk, TxPool.LookupOk, TxLookup.All, ItemsOf, SlotSum, Listed, LowestNonce, Below, AtLeast;
    pool.LookupFacts();
    SlotSumMinus(pool.all.All(), h);
    pool.RemoveTx(h, true, 0);
    pool.LookupFacts();
    assert Samples(hs) - {h} == Samples(hs - {h});
  }

  lemma FullUp(pool: TxPool)
    requires Holds(pool, {1, 2, 3, 4}, FullHeaps()) && pool.Shortage(Sample(5)) == 2
    ensures !pool.CheaperThanAll(Sample(5)) && pool.CanFree(Sample(5))
  {
    assert Sample(1) in multiset(pool.priced.urgent) && Live(Sample(1), pool.all.remotes);
    assert Cmp(None, Sample(1), Sample(5)) == -1;
    TwoLive();
  }

  lemma TwoLive()
    ensures Enough(FullHeaps().Entries(), Samples({1, 2, 3, 4}), 2)
  {
    var s := [Sample(1), Sample(2)];
    assert multiset(s) == multiset{Sample(1), Sample(2)};
    assert LiveChoice(s, FullHeaps().Entries(), Samples({1, 2, 3, 4}));
    assert s[..1] == [Sample(1)] && SlotTotal([Sample(1)]) == 1;
  }

  lemma {:induction false} OneSlotEach(drop: seq<Tx>)
    requires forall e :: e in drop ==> NumSlots(e) == 1
    ensures SlotTotal(drop) == |drop|
  {
    if drop != [] {
      OneSlotEach(drop[..|drop| - 1]);
    }
  }

  /** Room for the last transaction is made with both entries of the first. */
  lemma OnlyFirstDropped(before: Room, room: Room)
    requires before.heaps == FullHeaps() && before.remotes == Samples({1, 2, 3, 4}) && before.content.all == Samples({1, 2, 3, 4})
    requires MadeRoom(before, room, false, 2, false)
    ensures room.content.all == Samples({2, 3, 4}) && ContentOk(room.content.pending, room.content.queue, room.content.all)
  {
    hide ContentOk, Cheapest, SameLive, FullHeaps, Samples, SlotTotal, LiveChoice;
    TwoDropped(room.drop);
    FirstIsCheapest(room.drop, before, room);
    WithoutFirst(room.drop);
  }

  lemma TwoDropped(drop: seq<Tx>)
    requires LiveChoice(drop, FullHeaps().Entries(), Samples({1, 2, 3, 4}))
    requires SlotTotal(drop) >= 2 && (drop != [] ==> SlotTotal(drop[..|drop| - 1]) < 2)
    ensures |drop| == 2 && forall e :: e in drop ==> e in {Sample(1), Sample(2), Sample(3), Sample(4)}
  {
    hide Sample, SlotTotal, NumSlots;
    forall e | e in drop ensures e in {Sample(1), Sample(2), Sample(3), Sample(4)} && NumSlots(e) == 1 {
      assert e in multiset(drop) && e in FullHeaps().Entries();
      SampleSlots(1);
      SampleSlots(2);
      SampleSlots(3);
      SampleSlots(4);
    }
    OneSlotEach(drop);
    OneSlotEach(drop[..|drop| - 1]);
  }

  lemma WithoutFirst(drop: seq<Tx>)
    requires |drop| == 2 && drop[0] == drop[1] == Sample(1)
    ensures Samples({1, 2, 3, 4}) - DropHashes(drop) == Samples({2, 3, 4})
  {
    assert drop == [Sample(1), Sample(1)];
    assert DropHashes(drop) == {1};
  }

  lemma FirstIsCheapest(drop: seq<Tx>, before: Room, room: Room)
    requires before.heaps == FullHeaps() && before.remotes == Samples({1, 2, 3, 4}) && |drop| == 2
    requires Cheapest(drop, before.heaps, room.heaps) && forall e :: e in drop ==> e in {Sample(1), Sample(2), Sample(3), Sample(4)}
    requires SameLive(before.heaps.Entries(), room.heaps.Entries() + multiset(drop), before.remotes)
    ensures drop[0] == drop[1] == Sample(1)
  {
    var one := Sample(1);
    assert Layered(before.heaps);
    FirstLeft(drop, before, room);
    forall d | d in drop && d != one ensures Cheaper(None, one, d) {
    }
    if one in room.heaps.Entries() {
      assert drop[0] in drop && drop[1] in drop;
    }
  }

  lemma FirstLeft(drop: seq<Tx>, before: Room, room: Room)
    requires before.heaps == FullHeaps() && before.remotes == Samples({1, 2, 3, 4}) && |drop| == 2
    requires SameLive(before.heaps.Entries(), room.heaps.Entries() + multiset(drop), before.remotes)
    ensures drop[0] != Sample(1) || drop[1] != Sample(1) ==> Sample(1) in room.heaps.Entries()
  {
    var one := Sample(1);
    assert Live(one, before.remotes) && before.heaps.Entries()[one] == 2;
    assert drop == [drop[0], drop[1]] && multiset(drop) == multiset{drop[0], drop[1]};
    assert (room.heaps.Entries() + multiset(drop))[one] == 2;
  }

  lemma FinalSlots(all: ByHash)
    requires all == Samples({1, 2, 3, 4}) && SlotSum(all) == 4
    ensures SlotSum(Samples({2, 3, 4})[5 := Sample(5)]) == 5
  {
    hide SlotSum;
    SlotSumMinus(all, 1);
    assert all - {1} == Samples({2, 3, 4});
    SlotSumPlus(Samples({2, 3, 4}), Sample(5));
  }

  /** A run of remote transactions that ends with more slots taken than the two global limits allow:
      making room for the last one counts both heap entries of the first, but frees its slot once. */
  method OverLimit() returns (pool: TxPool)
    ensures pool.Valid() && pool.locals == {} && pool.Limit() == 4 && pool.all.slots == 5
  {
    hide ContentOk, ListsOk, TxPool.LookupOk, TxLookup.All, MadeRoom, Entered, NoOldEntry, UniqueLive, SlotSum, SomeLive, TxPool.CheaperThanAll, TxPool.CanFree;
    pool := FirstTwice();
    ghost var all, view := pool.all.All(), pool.View();
    pool.LookupFacts();
    FullUp(pool);
    var r;
    ghost var room;
    r, room := pool.Add(Sample(5), false, true, 0);
    OnlyFirstDropped(view, room);
    NoneFrom(room.content.pending, room.content.queue, {2, 3, 4}, 5);
    FinalSlots(all);
    pool.LookupFacts();
  }

  // ---------- Evicted for nothing ----------

  /** Two transactions of one account for the same nonce at the same price. */
  function Rival(h: Hash): (tx: Tx)
    ensures tx.gas <= BLOCK_GAS && tx.Cost() <= BALANCE
  {
    Tx(h, 9, 0, 5, 5, 21_000, 0, 110)
  }

  lemma FreeNonce(p: Lists, q: Lists, all: ByHash, tx: Tx)
    requires ContentOk(p, q, all) && forall h :: h in all ==> all[h].from != tx.from
    ensures tx.nonce !in ItemsOf(p, tx.from) && tx.nonce !in ItemsOf(q, tx.from)
  {
    assert AccountOk(tx.from, ItemsOf(p, tx.from), ItemsOf(q, tx.from), all);
  }

  /** A full pool: one local transaction and a remote one. */
  method LocalAndRemote() returns (pool: TxPool)
    ensures fresh(pool) && fresh(pool.all) && fresh(pool.priced)
    ensures pool.Valid() && pool.Limit() == 2 && pool.all.slots == 2 && !pool.Throttled() && pool.book(21) == Rival(21)
    ensures pool.all.All() == map[20 := Rival(20), 1 := Sample(1)] && pool.all.remotes == map[1 := Sample(1)]
    ensures Sample(1) in pool.priced.State().Entries()
  {
    hide ContentOk, ListsOk, TxPool.LookupOk, TxLookup.All, ItemsOf, SlotSum;
    pool := new TxPool(Config(10, 1, 1, 1, 1), _ => 0, _ => BALANCE, BLOCK_GAS, (h: Hash) => if h >= 20 then Rival(h) else Sample(h));
    pool.LookupFacts();
    NoSlots();
    FreeNonce(pool.pending, pool.queue, pool.all.All(), Rival(20));
    Enter(pool, Rival(20), true, 0);
    NoRemotes(pool);
    FreeNonce(pool.pending, pool.queue, pool.all.All(), Sample(1));
    Enter(pool, Sample(1), false, 0);
  }

  lemma NoRemotes(pool: TxPool)
    requires pool.Valid() && pool.all.All() == map[20 := Rival(20)] && 20 !in pool.all.remotes
    ensures pool.all.remotes == map[]
  {
    pool.LookupFacts();
    assert forall h :: h !in pool.all.remotes;
  }

  /** A local transaction is refused because it does not outbid the one it would replace, after a remote one has been
      dropped to make room for it. */
  method EvictedForNothing() returns (pool: TxPool, r: AddResult, ghost before: ByHash)
    ensures pool.Valid() && r == ReplaceUnderpriced
    ensures before == map[20 := Rival(20), 1 := Sample(1)] && pool.all.All() == map[20 := Rival(20)]
  {
    hide ContentOk, ListsOk, TxPool.LookupOk, TxLookup.All, MadeRoom, Entered, NoOldEntry, UniqueLive, SlotSum, SomeLive,
      TxPool.CheaperThanAll, TxPool.CanFree, ItemsOf, Placed;
    pool := LocalAndRemote();
    before := pool.all.All();
    ghost var view := pool.View();
    ghost var room;
    r, room := pool.Add(Rival(21), true, true, 0);
    StillThere(view, room, pool.config.priceBump, pool.Now(), r);
  }

  lemma NoSlots()
    ensures SlotSum(map[]) == 0
  {
  }

  lemma StillThere(before: Room, room: Room, bump: nat, after: Content, r: AddResult)
    requires before.content.all == map[20 := Rival(20), 1 := Sample(1)] && before.remotes == map[1 := Sample(1)]
    requires Sample(1) in before.heaps.Entries()
    requires MadeRoom(before, room, false, 1, true) && Placed(room.content, after, Rival(21), bump, r)
    ensures r == ReplaceUnderpriced && after.all == map[20 := Rival(20)]
  {
    hide ContentOk, Cheapest, SameLive;
    var drop := room.drop;
    assert Live(Sample(1), before.remotes);
    assert drop != [];
    assert drop[0] in drop;
    forall e | e in drop ensures e.hash == 1 {
      assert Live(e, before.remotes);
    }
    assert DropHashes(drop) == {1};
    assert room.content.all == map[20 := Rival(20)];
    FirstRivalListed(room.content);
  }

  lemma FirstRivalListed(c: Content)
    requires ContentOk(c.pending, c.queue, c.all) && c.all == map[20 := Rival(20)]
    ensures var P, Q := ItemsOf(c.pending, 9), ItemsOf(c.queue, 9);
      (0 in P ==> P[0] == Rival(20)) && (0 !in P ==> 0 in Q && Q[0] == Rival(20))
  {
    assert AccountOk(9, ItemsOf(c.pending, 9), ItemsOf(c.queue, 9), c.all);
    assert c.all[20].from == 9;
  }
}
