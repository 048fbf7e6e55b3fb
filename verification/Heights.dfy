/** Block heights (core/blockchain.go): checkpoint height plus the number of ancestors after it plus one. */
module Heights {
  import opened Transactions
  import opened Dag
  import opened HeaderChains

  /** All proper ancestors of a block. */
  ghost function Past(store: Store, h: Hash): set<Hash> {
    set x | x in store && x != h && Reach(store, store.Keys, h, x)
  }

  /** The given blocks and all their ancestors. */
  ghost function AllAncestors(store: Store, starts: seq<Hash>): set<Hash> {
    set x | x in store && ReachAny(store, store.Keys, starts, x)
  }

  /** No parent is missing and genesis is the only block without parents. */
  ghost predicate Rooted(store: Store, genesis: Hash) {
    && Ranked(store)
    && genesis in store && store[genesis].nr == 0 && store[genesis].height == 0
    && (forall h, p :: h in store && p in store[h].parents ==> p in store)
    && (forall h :: h in store ==> (store[h].parents == [] <==> h == genesis))
  }

  /** The stored height of a block counts its ancestors. */
  ghost predicate Counts(store: Store, h: Hash)
    requires h in store
  {
    store[h].height == |Past(store, h)|
  }

  ghost predicate HeightsCount(store: Store) {
    forall h :: h in store ==> Counts(store, h)
  }

  /** What the parent recursion finds. */
  ghost function SearchSet(store: Store, cp: Hash, starts: seq<Hash>): set<Hash>
    requires cp in store
  {
    set x | x in Expanding(store, cp) && ReachAny(store, Expanding(store, cp), starts, x)
  }

  /** What block verification establishes: the checkpoint is one, is an ancestor, and the height is the
      checkpoint's plus the number of blocks found after it plus one. */
  ghost predicate Verified(store: Store, h: Hash)
    requires h in store
  {
    var hd := store[h];
    && Checkpoint(store, hd.cp) && hd.cp in Past(store, h)
    && hd.height == store[hd.cp].height + |SearchSet(store, hd.cp, hd.parents)| + 1
  }

  ghost predicate AllVerified(store: Store, genesis: Hash) {
    forall h :: h in store && h != genesis ==> Verified(store, h)
  }

  /** A finalised checkpoint whose past is exactly what is numbered below it. */
  ghost predicate Checkpoint(store: Store, cp: Hash) {
    && cp in store && Finalized(store[cp])
    && forall x :: x in store ==> ((Finalized(store[x]) && store[x].nr < store[cp].nr) <==> x in Past(store, cp))
  }

  lemma PastOfPast(store: Store, a: Hash, b: Hash, c: Hash)
    requires Ranked(store) && b in Past(store, a) && c in store && Reach(store, store.Keys, b, c)
    ensures c in Past(store, a)
  {
    hide Reach;
    ReachTrans(store, store.Keys, a, b, c);
    ReachDescends(store, store.Keys, a, b);
    if b != c {
      ReachDescends(store, store.Keys, b, c);
    }
  }

  lemma ParentInPast(store: Store, h: Hash, p: Hash)
    requires Ranked(store) && h in store && p in store && p in store[h].parents
    ensures p in Past(store, h)
  {
    ReachSelf(store, store.Keys, p);
    ReachByParent(store, store.Keys, h, p, p);
  }

  lemma GenesisIsPast(store: Store, genesis: Hash, cp: Hash)
    requires Rooted(store, genesis) && Checkpoint(store, cp) && cp != genesis
    ensures genesis in Past(store, cp)
  {
    AllFromGenesis(store, genesis, cp);
  }

  /** Genesis is an ancestor of every other block. */
  lemma {:induction false} AllFromGenesis(store: Store, genesis: Hash, h: Hash)
    requires Rooted(store, genesis) && h in store && h != genesis
    ensures genesis in Past(store, h)
    decreases store[h].height
  {
    hide Reach;
    var p := store[h].parents[0];
    assert p in store[h].parents;
    ParentInPast(store, h, p);
    if p != genesis {
      AllFromGenesis(store, genesis, p);
      PastOfPast(store, h, p, genesis);
    }
  }

  /** A block from which something outside the checkpoint's past is reached, other than the checkpoint, is looked behind. */
  lemma LookedBehind(store: Store, genesis: Hash, cp: Hash, y: Hash, x: Hash)
    requires Rooted(store, genesis) && Checkpoint(store, cp)
    requires y in store && x in store && x !in Past(store, cp) && y != cp && Reach(store, store.Keys, y, x)
    ensures y in Expanding(store, cp)
  {
    hide Past, Reach;
    if y in Past(store, cp) {
      PastOfPast(store, cp, y, x);
    }
    if y == genesis {
      GenesisIsPast(store, genesis, cp);
    }
  }

  /** Outside the checkpoint's past the cut-off search reaches as much as the full one. */
  lemma {:induction false} SearchReaches(store: Store, genesis: Hash, cp: Hash, y: Hash, x: Hash)
    requires Rooted(store, genesis) && Checkpoint(store, cp)
    requires y in store && x in store && x !in Past(store, cp) && Reach(store, store.Keys, y, x)
    ensures Reach(store, Expanding(store, cp), y, x)
    decreases Depth(store, y)
  {
    hide Reach, Past, Expanding;
    var inner := Expanding(store, cp);
    if y == x {
      ReachSelf(store, inner, y);
    } else {
      if y == cp {
        InPast(store, cp, x);
      }
      LookedBehind(store, genesis, cp, y, x);
      var p := FirstStep(store, store.Keys, y, x);
      SearchReaches(store, genesis, cp, p, x);
      ReachByParent(store, inner, y, p, x);
    }
  }

  lemma InPast(store: Store, a: Hash, x: Hash)
    requires x in store && x != a && Reach(store, store.Keys, a, x)
    ensures x in Past(store, a)
  {
  }

  lemma NotOwnPast(store: Store, a: Hash)
    ensures a !in Past(store, a)
  {
  }

  /** The search finds the ancestors that are neither the checkpoint nor in its past. */
  lemma SearchIsDifference(store: Store, genesis: Hash, cp: Hash, starts: seq<Hash>, x: Hash)
    requires Rooted(store, genesis) && Checkpoint(store, cp)
    requires forall s :: s in starts ==> s in store
    ensures var inner := Expanding(store, cp);
      && (x in inner && ReachAny(store, inner, starts, x) <==> x in AllAncestors(store, starts) && x != cp && x !in Past(store, cp))
      && (ReachAny(store, inner, starts, cp) <==> cp in AllAncestors(store, starts))
  {
    hide Reach, Past;
    ReachBoth(store, genesis, cp, starts, x);
    NotOwnPast(store, cp);
    ReachBoth(store, genesis, cp, starts, cp);
    if x in store && x != cp && x !in Past(store, cp) {
      ReachSelf(store, store.Keys, x);
      LookedBehind(store, genesis, cp, x, x);
    }
    hide ReachAny;
  }

  lemma ReachBoth(store: Store, genesis: Hash, cp: Hash, starts: seq<Hash>, x: Hash)
    requires Rooted(store, genesis) && Checkpoint(store, cp)
    requires forall s :: s in starts ==> s in store
    ensures var inner := Expanding(store, cp);
      && (ReachAny(store, inner, starts, x) ==> ReachAny(store, store.Keys, starts, x))
      && (x in store && x !in Past(store, cp) && ReachAny(store, store.Keys, starts, x) ==> ReachAny(store, inner, starts, x))
  {
    hide Reach, Past, Expanding;
    var inner := Expanding(store, cp);
    assert inner <= store.Keys by { OnlyStored(store, cp); }
    if ReachAny(store, inner, starts, x) {
      var s :| s in starts && Reach(store, inner, s, x);
      ReachMore(store, inner, store.Keys, s, x);
    }
    if x in store && x !in Past(store, cp) && ReachAny(store, store.Keys, starts, x) {
      var s :| s in starts && Reach(store, store.Keys, s, x);
      SearchReaches(store, genesis, cp, s, x);
    }
  }

  lemma OnlyStored(store: Store, cp: Hash)
    requires cp in store
    ensures Expanding(store, cp) <= store.Keys
  {
  }

  /** The computed height never falls short of the number of ancestors, and equals it exactly when the
      checkpoint is among them. */
  lemma HeightCountsAncestors(store: Store, genesis: Hash, cp: Hash, starts: seq<Hash>,
                              isCp: bool, ancestors: HeaderMap, unloaded: seq<Hash>)
    requires Rooted(store, genesis) && Checkpoint(store, cp) && Counts(store, cp)
    requires forall s :: s in starts ==> s in store
    requires Exact(store, cp, starts, isCp, ancestors, unloaded)
    ensures isCp <==> cp in AllAncestors(store, starts)
    ensures |AllAncestors(store, starts)| <= store[cp].height + |ancestors| + 1
    ensures store[cp].height + |ancestors| + 1 == |AllAncestors(store, starts)| <==> isCp
  {
    hide Reach, ReachAny, Past, AllAncestors, Expanding;
    FoundSet(store, cp, starts, isCp, ancestors, unloaded);
    SearchIsDifference(store, genesis, cp, starts, cp);
    CountFromCp(store, genesis, cp, starts);
  }

  lemma FoundSet(store: Store, cp: Hash, starts: seq<Hash>, isCp: bool, ancestors: HeaderMap, unloaded: seq<Hash>)
    requires cp in store && Exact(store, cp, starts, isCp, ancestors, unloaded)
    ensures ancestors.Keys == SearchSet(store, cp, starts)
  {
    hide ReachAny, Expanding;
  }

  /** Ancestors are the checkpoint, its past and what the search finds, exactly when the checkpoint is one of them. */
  lemma CountFromCp(store: Store, genesis: Hash, cp: Hash, starts: seq<Hash>)
    requires Rooted(store, genesis) && Checkpoint(store, cp) && forall s :: s in starts ==> s in store
    ensures var all, count := AllAncestors(store, starts), |Past(store, cp)| + |SearchSet(store, cp, starts)| + 1;
      |all| <= count && (|all| == count <==> cp in all)
  {
    hide Reach, ReachAny, Past, AllAncestors, Expanding;
    var all, past, found := AllAncestors(store, starts), Past(store, cp), SearchSet(store, cp, starts);
    forall x ensures x in found <==> x in all && x != cp && x !in past {
      SearchIsDifference(store, genesis, cp, starts, x);
    }
    NotOwnPast(store, cp);
    if cp in all {
      PastInside(store, cp, starts);
    }
    Counting(all, past, cp, found);
  }

  /** The past of a block are its parents and their ancestors. */
  lemma PastIsAncestors(store: Store, h: Hash)
    requires Ranked(store) && h in store
    ensures Past(store, h) == AllAncestors(store, store[h].parents)
  {
    hide Reach;
    forall x ensures x in Past(store, h) <==> x in AllAncestors(store, store[h].parents) {
      ReachUnfold(store, store.Keys, h, x);
      if x in AllAncestors(store, store[h].parents) {
        var p :| p in store[h].parents && Reach(store, store.Keys, p, x);
        if p in store {
          ParentInPast(store, h, p);
          PastOfPast(store, h, p, x);
        } else {
          NotStored(store, p, x);
        }
      }
    }
  }

  lemma NotStored(store: Store, p: Hash, x: Hash)
    requires p !in store && Reach(store, store.Keys, p, x)
    ensures x == p
  {
    hide Reach;
    if p != x {
      var q := FirstStep(store, store.Keys, p, x);
    }
  }

  /** Verified heights count ancestors. */
  lemma {:induction false} VerifiedCounts(store: Store, genesis: Hash, h: Hash)
    requires Rooted(store, genesis) && AllVerified(store, genesis) && h in store
    ensures Counts(store, h)
    decreases store[h].height
  {
    hide Reach, SearchSet, AllAncestors;
    if h == genesis {
      assert Past(store, genesis) == {} by { GenesisHasNoPast(store, genesis); }
    } else {
      assert Verified(store, h);
      var cp := store[h].cp;
      ReachDescends(store, store.Keys, h, cp);
      VerifiedCounts(store, genesis, cp);
      PastIsAncestors(store, h);
      CountFromCp(store, genesis, cp, store[h].parents);
    }
  }

  lemma GenesisHasNoPast(store: Store, genesis: Hash)
    requires Rooted(store, genesis)
    ensures Past(store, genesis) == {}
  {
    hide Reach;
    forall x ensures x !in Past(store, genesis) {
      if x != genesis && Reach(store, store.Keys, genesis, x) {
        var q := FirstStep(store, store.Keys, genesis, x);
      }
    }
  }

  /** Block verification makes every stored height the number of ancestors. */
  lemma HeightsAreCounts(store: Store, genesis: Hash)
    requires Rooted(store, genesis) && AllVerified(store, genesis)
    ensures HeightsCount(store)
  {
    hide Rooted, AllVerified, Counts;
    forall h | h in store ensures Counts(store, h) {
      VerifiedCounts(store, genesis, h);
    }
  }

  lemma PastInside(store: Store, cp: Hash, starts: seq<Hash>)
    requires Ranked(store) && cp in AllAncestors(store, starts)
    ensures Past(store, cp) <= AllAncestors(store, starts)
  {
    hide Reach;
    var s :| s in starts && Reach(store, store.Keys, s, cp);
    forall x | x in Past(store, cp) ensures x in AllAncestors(store, starts) {
      ReachTrans(store, store.Keys, s, cp, x);
    }
  }

  lemma Counting(all: set<Hash>, past: set<Hash>, cp: Hash, rest: set<Hash>)
    requires cp !in past && rest == all - past - {cp} && (cp in all ==> past <= all)
    ensures |all| <= |past| + |rest| + 1
    ensures |all| == |past| + |rest| + 1 <==> cp in all
  {
    if cp in all {
      assert all == past + rest + {cp};
    } else {
      var shared := all * past;
      assert all == shared + rest;
      assert past == shared + (past - shared);
    }
  }

  /** Any two checkpoints among the ancestors give the same height. */
  lemma HeightIndependent(store: Store, genesis: Hash, cp: Hash, cp': Hash, starts: seq<Hash>, ancestors: HeaderMap, ancestors': HeaderMap,
                          unloaded: seq<Hash>, unloaded': seq<Hash>)
    requires Rooted(store, genesis) && Checkpoint(store, cp) && Checkpoint(store, cp') && Counts(store, cp) && Counts(store, cp')
    requires forall s :: s in starts ==> s in store
    requires Exact(store, cp, starts, true, ancestors, unloaded) && Exact(store, cp', starts, true, ancestors', unloaded')
    ensures store[cp].height + |ancestors| + 1 == store[cp'].height + |ancestors'| + 1
  {
    hide Exact, Checkpoint, Rooted, Counts, AllAncestors;
    HeightCountsAncestors(store, genesis, cp, starts, true, ancestors, unloaded);
    HeightCountsAncestors(store, genesis, cp', starts, true, ancestors', unloaded');
  }

  /** The computed height exceeds that of every parent, whichever checkpoint is used. */
  lemma HeightAboveParents(store: Store, genesis: Hash, cp: Hash, starts: seq<Hash>, p: Hash,
                           isCp: bool, ancestors: HeaderMap, unloaded: seq<Hash>)
    requires Rooted(store, genesis) && Checkpoint(store, cp) && Counts(store, cp)
    requires forall s :: s in starts ==> s in store
    requires Exact(store, cp, starts, isCp, ancestors, unloaded) && p in starts && Counts(store, p)
    ensures store[p].height < store[cp].height + |ancestors| + 1
  {
    hide Exact, Checkpoint, Reach;
    HeightCountsAncestors(store, genesis, cp, starts, isCp, ancestors, unloaded);
    ReachSelf(store, store.Keys, p);
    assert p in AllAncestors(store, starts);
    PastInside(store, p, starts);
    NotOwnPast(store, p);
    ProperSubset(Past(store, p), AllAncestors(store, starts), p);
  }

  lemma ProperSubset(a: set<Hash>, b: set<Hash>, x: Hash)
    requires a <= b && x in b && x !in a
    ensures |a| < |b|
  {
    assert b == a + (b - a);
  }

  // ---------- A checkpoint off the path ----------

  /** Genesis 0 with two children: 1 is finalised with number 1, 2 is not finalised. */
  function Fork(): Store {
    map[0 := Header([], 0, 0, 0, 0), 1 := Header([0], 1, 1, 0, 1), 2 := Header([0], 1, 1, 0, 0)]
  }

  lemma ForkPast(x: Hash)
    ensures x in Past(Fork(), 0) <==> false
    ensures x in Past(Fork(), 1) <==> x == 0
    ensures x in Past(Fork(), 2) <==> x == 0
    ensures x in AllAncestors(Fork(), [2]) <==> x == 0 || x == 2
  {
    hide Reach;
    var keys := Fork().Keys;
    ReachUnfold(Fork(), keys, 0, x);
    ReachUnfold(Fork(), keys, 1, x);
    ReachUnfold(Fork(), keys, 2, x);
    ReachOne(Fork(), keys, 0, x);
    ReachOne(Fork(), keys, 2, x);
  }

  lemma ForkSearch(x: Hash)
    ensures x !in SearchSet(Fork(), 0, [0])
    ensures x in SearchSet(Fork(), 1, [2]) <==> x == 2
  {
    hide Reach;
    var first, second := Expanding(Fork(), 0), Expanding(Fork(), 1);
    ReachOne(Fork(), first, 0, x);
    ReachUnfold(Fork(), first, 0, x);
    ReachOne(Fork(), second, 2, x);
    ReachUnfold(Fork(), second, 2, x);
    ReachOne(Fork(), second, 0, x);
    ReachUnfold(Fork(), second, 0, x);
  }

  lemma ForkRooted()
    ensures Rooted(Fork(), 0)
  {
  }

  lemma ForkCheckpoint(cp: Hash)
    requires cp == 0 || cp == 1
    ensures Checkpoint(Fork(), cp)
  {
    hide Past;
    forall x ensures (x in Past(Fork(), 0) <==> false) && (x in Past(Fork(), 1) <==> x == 0) {
      ForkPast(x);
    }
  }

  lemma ForkBlock(h: Hash)
    requires h == 1 || h == 2
    ensures Verified(Fork(), h)
  {
    hide Past, SearchSet, Checkpoint;
    ForkCheckpoint(0);
    ForkPast(0);
    forall x ensures x !in SearchSet(Fork(), 0, [0]) {
      ForkSearch(x);
    }
    assert SearchSet(Fork(), 0, [0]) == {};
  }

  lemma ForkVerified()
    ensures Rooted(Fork(), 0) && AllVerified(Fork(), 0) && Checkpoint(Fork(), 1)
  {
    hide Rooted, Checkpoint, Verified;
    ForkRooted();
    ForkCheckpoint(1);
    ForkBlock(1);
    ForkBlock(2);
  }

  /** A child of 2 that names 1 as its checkpoint has two ancestors, but the height computed for it is three. */
  lemma Overcount()
    ensures Rooted(Fork(), 0) && AllVerified(Fork(), 0) && Checkpoint(Fork(), 1)
    ensures |AllAncestors(Fork(), [2])| == 2
    ensures Fork()[1].height + |SearchSet(Fork(), 1, [2])| + 1 == 3
  {
    hide AllAncestors, SearchSet, Rooted, AllVerified, Checkpoint;
    ForkVerified();
    forall x ensures (x in SearchSet(Fork(), 1, [2]) <==> x == 2) && (x in AllAncestors(Fork(), [2]) <==> x == 0 || x == 2) {
      ForkSearch(x);
      ForkPast(x);
    }
    assert SearchSet(Fork(), 1, [2]) == {2} && AllAncestors(Fork(), [2]) == {0, 2};
  }

  // ---------- CalcBlockHeightByParents ----------

  datatype HeightResult = Height(height: nat) | NotFinalizedCp | UncompletedDag | SearchFailed

  method CalcBlockHeightByParents(hc: HeaderChain, parents: seq<Hash>, cp: Hash) returns (r: HeightResult)
    requires hc.CacheOk()
    modifies hc`ancestorCache
    ensures hc.CacheOk()
    ensures r == NotFinalizedCp <==> cp !in hc.store || !Finalized(hc.store[cp])
    ensures Rooted(hc.store, hc.genesis) && Checkpoint(hc.store, cp) && Counts(hc.store, cp) ==>
      if exists p :: p in parents && p !in hc.store then r == UncompletedDag
      else
        && r.Height?
        && (r.height == |AllAncestors(hc.store, parents)| <==> cp in AllAncestors(hc.store, parents))
        && (forall p :: p in parents && Counts(hc.store, p) ==> hc.store[p].height < r.height)
  {
    hide Exact, Checkpoint, Rooted, Counts, AllAncestors, CorrectEntry, ErrorOf, Ranked, ErrorFree;
    if cp !in hc.store || !Finalized(hc.store[cp]) {
      NeedsFinalized(hc.store, cp);
      return NotFinalizedCp;
    }
    var isCp, ancestors, unloaded, err;
    ghost var done;
    isCp, ancestors, unloaded, err, done := hc.Collect(parents, cp);
    NoSearchError(hc.store, hc.genesis, cp);
    if err != NoError {
      return SearchFailed;
    }
    assert parents[..done] == parents;
    if |unloaded| > 0 {
      SomeMissing(hc.store, hc.genesis, cp, parents, isCp, ancestors, unloaded);
      return UncompletedDag;
    }
    NoneMissing(hc.store, cp, parents, isCp, ancestors);
    r := Height(hc.store[cp].height + |ancestors| + 1);
    if Rooted(hc.store, hc.genesis) && Checkpoint(hc.store, cp) && Counts(hc.store, cp) {
      HeightCountsAncestors(hc.store, hc.genesis, cp, parents, isCp, ancestors, unloaded);
      forall p | p in parents && Counts(hc.store, p) ensures hc.store[p].height < r.height {
        HeightAboveParents(hc.store, hc.genesis, cp, parents, p, isCp, ancestors, unloaded);
      }
    }
  }

  lemma NeedsFinalized(store: Store, cp: Hash)
    ensures Checkpoint(store, cp) ==> cp in store && Finalized(store[cp])
  {
  }

  lemma NoSearchError(store: Store, genesis: Hash, cp: Hash)
    requires Ranked(store) && cp in store
    ensures Rooted(store, genesis) ==> forall h: Hash :: ErrorOf(store, genesis, cp, h) == NoError
  {
    NoOrphansNoError(store, genesis, cp);
  }

  /** In a store without missing parents only the given blocks themselves can be missing. */
  lemma SomeMissing(store: Store, genesis: Hash, cp: Hash, starts: seq<Hash>, isCp: bool, ancestors: HeaderMap, unloaded: seq<Hash>)
    requires cp in store && Exact(store, cp, starts, isCp, ancestors, unloaded) && |unloaded| > 0
    ensures Rooted(store, genesis) ==> exists p :: p in starts && p !in store
  {
    hide Reach, Expanding;
    if Rooted(store, genesis) {
      var x := unloaded[0];
      assert x in unloaded;
      var inner := Expanding(store, cp);
      var s :| s in starts && Reach(store, inner, s, x);
      if s in store {
        StaysStored(store, genesis, inner, s, x);
      }
    }
  }

  lemma {:induction false} StaysStored(store: Store, genesis: Hash, inner: set<Hash>, a: Hash, b: Hash)
    requires Rooted(store, genesis) && a in store && Reach(store, inner, a, b)
    ensures b in store
    decreases Depth(store, a)
  {
    hide Reach;
    if a != b {
      var p := FirstStep(store, inner, a, b);
      StaysStored(store, genesis, inner, p, b);
    }
  }

  lemma NoneMissing(store: Store, cp: Hash, starts: seq<Hash>, isCp: bool, ancestors: HeaderMap)
    requires cp in store && Exact(store, cp, starts, isCp, ancestors, [])
    ensures forall s :: s in starts ==> s in store
  {
    hide Expanding, Reach;
    var inner := Expanding(store, cp);
    forall s | s in starts ensures s in store {
      ReachSelf(store, inner, s);
      assert ReachAny(store, inner, starts, s);
      assert s !in [];
    }
  }
}
