/** The tip part of insertBlocks (core/blockchain.go) and the tip set of HeaderChain (core/headerchain.go). */
module BlockTips {
  import opened Basics
  import opened Transactions
  import opened Dag
  import opened HeaderChains
  import opened Heights
  import opened Insertion

  /** BlockDAG: the flat ancestor list kept for a block, counted from its checkpoint. */
  datatype BlockDag = BlockDag(hash: Hash, cp: Hash, ancestors: seq<Hash>)

  /** A kept list is, as a set, what the parent recursion finds. */
  ghost predicate DagOk(store: Store, h: Hash, d: BlockDag) {
    && h in store && d.hash == h && (store[h].height > 0 ==> d.cp == store[h].cp)
    && if d.cp in store then Elements(d.ancestors) == SearchSet(store, d.cp, store[h].parents)
       else store[h].parents == [] && d.ancestors == []
  }

  ghost predicate DagsOk(store: Store, dags: map<Hash, BlockDag>) {
    forall h :: h in dags ==> DagOk(store, h, dags[h])
  }

  /** Parents of finalised blocks are finalised. */
  ghost predicate FinalizedBelow(store: Store) {
    forall h, p :: h in store && p in store[h].parents && p in store && Finalized(store[h]) ==> Finalized(store[p])
  }

  /** No unfinalised tip is an ancestor of another. */
  ghost predicate Antichain(store: Store, tips: set<Hash>) {
    forall t, u :: t in tips && u in tips && t in store && u in store && !Finalized(store[t]) && !Finalized(store[u]) && t != u ==>
      !Reach(store, store.Keys, t, u)
  }

  /** `x` is an unfinalised tip or an ancestor of one. */
  ghost predicate Covered(store: Store, tips: set<Hash>, x: Hash) {
    exists t :: t in tips && t in store && !Finalized(store[t]) && Reach(store, store.Keys, t, x)
  }

  // ---------- What insertion does to the graph ----------

  /** The block goes directly on the checkpoint, or on unfinalised blocks over the same checkpoint. */
  predicate Over(store: Store, hd: Header) {
    && hd.cp in store && Finalized(store[hd.cp]) && !Finalized(hd)
    && (hd.parents == [hd.cp] ||
        forall p :: p in hd.parents ==> p in store && store[p].cp == hd.cp && !Finalized(store[p]))
  }

  lemma GrownRanked(store: Store, genesis: Hash, b: Hash, hd: Header)
    requires Rooted(store, genesis) && FinalizedBelow(store) && b !in store && ParentsFine(store, hd) && !Finalized(hd)
    ensures Rooted(store[b := hd], genesis) && FinalizedBelow(store[b := hd])
  {
  }

  /** Old blocks do not reach the new one, so between old blocks nothing changes. */
  lemma OldReach(store: Store, genesis: Hash, b: Hash, hd: Header, a: Hash, x: Hash)
    requires Rooted(store, genesis) && b !in store && a in store
    ensures Reach(store[b := hd], store[b := hd].Keys, a, x) <==> Reach(store, store.Keys, a, x)
    ensures !Reach(store, store.Keys, a, b)
  {
    hide Reach;
    if Reach(store, store.Keys, a, b) {
      StaysStored(store, genesis, store.Keys, a, b);
    }
    ReachStable(store, b, hd, store.Keys, store[b := hd].Keys, a, x);
  }

  lemma OldSearch(store: Store, genesis: Hash, b: Hash, hd: Header, cp: Hash, starts: seq<Hash>)
    requires Rooted(store, genesis) && b !in store && cp in store && forall s :: s in starts ==> s in store
    ensures SearchSet(store[b := hd], cp, starts) == SearchSet(store, cp, starts)
  {
    hide Reach, Expanding;
    var store' := store[b := hd];
    var inner, inner' := Expanding(store, cp), Expanding(store', cp);
    ExpandingGrows(store, b, hd, cp);
    OnlyStored(store, cp);
    OnlyStored(store', cp);
    forall s, x | s in starts ensures (Reach(store', inner', s, x) <==> Reach(store, inner, s, x)) && !Reach(store, inner, s, b) {
      if Reach(store, inner, s, b) {
        StaysStored(store, genesis, inner, s, b);
      }
      ReachStable(store, b, hd, inner, inner', s, x);
    }
  }

  lemma OldDags(store: Store, genesis: Hash, b: Hash, hd: Header, dags: map<Hash, BlockDag>)
    requires Rooted(store, genesis) && b !in store && DagsOk(store, dags)
    ensures DagsOk(store[b := hd], dags)
  {
    hide SearchSet;
    forall h | h in dags ensures DagOk(store[b := hd], h, dags[h]) {
      var d := dags[h];
      assert DagOk(store, h, d);
      if d.cp in store {
        OldSearch(store, genesis, b, hd, d.cp, store[h].parents);
      } else if d.cp in store[b := hd] {
        NothingToSearch(store[b := hd], d.cp);
      }
    }
  }

  lemma NothingToSearch(store: Store, cp: Hash)
    requires cp in store
    ensures SearchSet(store, cp, []) == {} && Elements<Hash>([]) == {}
  {
  }

  lemma UnfinalizedExpands(store: Store, genesis: Hash, cp: Hash, h: Hash)
    requires Rooted(store, genesis) && cp in store && Finalized(store[cp]) && h in store && !Finalized(store[h])
    ensures h in Expanding(store, cp)
  {
  }

  /** The search misses no unfinalised ancestor. */
  lemma {:induction false} UnfinalizedReach(store: Store, genesis: Hash, cp: Hash, s: Hash, u: Hash)
    requires Rooted(store, genesis) && FinalizedBelow(store) && cp in store && Finalized(store[cp])
    requires s in store && u in store && !Finalized(store[u]) && Reach(store, store.Keys, s, u)
    ensures !Finalized(store[s]) && Reach(store, Expanding(store, cp), s, u)
    decreases Depth(store, s)
  {
    hide Reach, Expanding;
    var inner := Expanding(store, cp);
    if s == u {
      ReachSelf(store, inner, s);
    } else {
      var p := FirstStep(store, store.Keys, s, u);
      UnfinalizedReach(store, genesis, cp, p, u);
      UnfinalizedExpands(store, genesis, cp, s);
      ReachByParent(store, inner, s, p, u);
    }
  }

  /** The tips after inserting `b` whose ancestor list holds `chain`. */
  ghost function TipsAfter(store: Store, tips: set<Hash>, b: Hash, chain: set<Hash>): set<Hash> {
    (set t | t in tips && t in store && !Finalized(store[t])) + {b} - chain
  }

  lemma NewIsTip(store: Store, genesis: Hash, b: Hash, hd: Header)
    requires Rooted(store, genesis) && b !in store && ParentsFine(store, hd) && hd.cp in store
    ensures b !in SearchSet(store[b := hd], hd.cp, hd.parents)
  {
    hide Reach, Expanding;
    OldSearch(store, genesis, b, hd, hd.cp, hd.parents);
    OnlyStored(store, hd.cp);
  }

  lemma InChain(store: Store, genesis: Hash, b: Hash, hd: Header, u: Hash)
    requires Rooted(store, genesis) && FinalizedBelow(store) && b !in store && ParentsFine(store, hd) && Over(store, hd)
    requires u in store && !Finalized(store[u])
    ensures Reach(store[b := hd], store[b := hd].Keys, b, u) <==> u in SearchSet(store[b := hd], hd.cp, hd.parents)
  {
    hide Reach, Expanding;
    var store' := store[b := hd];
    GrownRanked(store, genesis, b, hd);
    UnfinalizedExpands(store', genesis, hd.cp, u);
    OnlyStored(store', hd.cp);
    if Reach(store', store'.Keys, b, u) {
      var p := FirstStep(store', store'.Keys, b, u);
      UnfinalizedReach(store', genesis, hd.cp, p, u);
    }
    if u in SearchSet(store', hd.cp, hd.parents) {
      var p :| p in hd.parents && Reach(store', Expanding(store', hd.cp), p, u);
      ReachMore(store', Expanding(store', hd.cp), store'.Keys, p, u);
      ReachByParent(store', store'.Keys, b, p, u);
    }
  }

  /** Insertion keeps the unfinalised tips an antichain. */
  lemma AntichainKept(store: Store, genesis: Hash, b: Hash, hd: Header, tips: set<Hash>)
    requires Rooted(store, genesis) && FinalizedBelow(store) && b !in store && ParentsFine(store, hd) && Over(store, hd)
    requires Antichain(store, tips)
    ensures Antichain(store[b := hd], TipsAfter(store, tips, b, SearchSet(store[b := hd], hd.cp, hd.parents)))
  {
    hide Reach, SearchSet;
    var store' := store[b := hd];
    var tips' := TipsAfter(store, tips, b, SearchSet(store', hd.cp, hd.parents));
    forall t, u | t in tips' && u in tips' && !Finalized(store'[t]) && !Finalized(store'[u]) && t != u
      ensures !Reach(store', store'.Keys, t, u)
    {
      if t == b {
        InChain(store, genesis, b, hd, u);
      } else {
        OldReach(store, genesis, b, hd, t, u);
        OldReach(store, genesis, b, hd, t, b);
      }
    }
  }

  /** Insertion keeps every covered block covered, and covers the new one. */
  lemma CoverKept(store: Store, genesis: Hash, b: Hash, hd: Header, tips: set<Hash>, x: Hash)
    requires Rooted(store, genesis) && FinalizedBelow(store) && b !in store && ParentsFine(store, hd) && Over(store, hd)
    requires x == b || (x in store && Covered(store, tips, x))
    ensures Covered(store[b := hd], TipsAfter(store, tips, b, SearchSet(store[b := hd], hd.cp, hd.parents)), x)
  {
    hide Reach, SearchSet;
    var store' := store[b := hd];
    var chain := SearchSet(store', hd.cp, hd.parents);
    GrownRanked(store, genesis, b, hd);
    NewIsTip(store, genesis, b, hd);
    ReachSelf(store', store'.Keys, b);
    if x != b {
      var t :| t in tips && t in store && !Finalized(store[t]) && Reach(store, store.Keys, t, x);
      OldReach(store, genesis, b, hd, t, x);
      if t in chain {
        InChain(store, genesis, b, hd, t);
        ReachTrans(store', store'.Keys, b, t, x);
      } else {
        assert t in TipsAfter(store, tips, b, chain);
      }
    }
  }

  /** The parents and their lists together are what the recursion from the parents finds. */
  lemma ListsTogether(store: Store, cp: Hash, parents: seq<Hash>, x: Hash)
    requires cp in store && forall p :: p in parents ==> p in store && p in Expanding(store, cp)
    ensures x in SearchSet(store, cp, parents) <==>
      exists p :: p in parents && (x == p || x in SearchSet(store, cp, store[p].parents))
  {
    hide Reach, Expanding;
    var inner := Expanding(store, cp);
    forall p | p in parents ensures
      p in inner && (Reach(store, inner, p, x) <==> x == p || ReachAny(store, inner, store[p].parents, x)) {
      ReachUnfold(store, inner, p, x);
    }
  }

  /** A verified block keeps all blocks verified, and so all heights counting ancestors. */
  lemma HeightsKept(store: Store, genesis: Hash, b: Hash, hd: Header)
    requires Rooted(store, genesis) && AllVerified(store, genesis) && b !in store && ParentsFine(store, hd) && !Finalized(hd)
    requires Checkpoint(store, hd.cp) && hd.cp in AllAncestors(store, hd.parents)
    requires hd.height == store[hd.cp].height + |SearchSet(store, hd.cp, hd.parents)| + 1
    ensures AllVerified(store[b := hd], genesis) && HeightsCount(store[b := hd])
  {
    hide Reach, Rooted, Checkpoint, Past, AllAncestors, SearchSet, HeightsCount;
    var store' := store[b := hd];
    RootedAfter(store, genesis, b, hd);
    forall h | h in store' && h != genesis ensures Verified(store', h) {
      var cp := store'[h].cp;
      assert h != b ==> Verified(store, h);
      NeedsFinalized(store, cp);
      CheckpointKept(store, genesis, b, hd, cp);
      SearchKept(store, genesis, b, hd, cp, h);
      if h == b {
        NewPast(store, genesis, b, hd);
      } else {
        OldPast(store, genesis, b, hd, h);
      }
    }
    HeightsAreCounts(store', genesis);
  }

  lemma RootedAfter(store: Store, genesis: Hash, b: Hash, hd: Header)
    requires Rooted(store, genesis) && b !in store && ParentsFine(store, hd)
    ensures Rooted(store[b := hd], genesis)
  {
  }

  lemma SearchKept(store: Store, genesis: Hash, b: Hash, hd: Header, cp: Hash, h: Hash)
    requires Rooted(store, genesis) && b !in store && ParentsFine(store, hd) && cp in store && h in store[b := hd]
    ensures SearchSet(store[b := hd], cp, store[b := hd][h].parents) == SearchSet(store, cp, store[b := hd][h].parents)
  {
    hide SearchSet;
    OldSearch(store, genesis, b, hd, cp, store[b := hd][h].parents);
  }

  /** An unfinalised block does not come between a checkpoint and its past. */
  lemma CheckpointKept(store: Store, genesis: Hash, b: Hash, hd: Header, cp: Hash)
    requires Rooted(store, genesis) && b !in store && !Finalized(hd) && Checkpoint(store, cp)
    ensures Checkpoint(store[b := hd], cp)
  {
    hide Reach, Rooted;
    OldPast(store, genesis, b, hd, cp);
  }

  lemma OldPast(store: Store, genesis: Hash, b: Hash, hd: Header, h: Hash)
    requires Rooted(store, genesis) && b !in store && h in store
    ensures Past(store[b := hd], h) == Past(store, h)
  {
    hide Reach, Rooted;
    forall x ensures x in Past(store[b := hd], h) <==> x in Past(store, h) {
      OldReach(store, genesis, b, hd, h, x);
    }
  }

  lemma NewPast(store: Store, genesis: Hash, b: Hash, hd: Header)
    requires Rooted(store, genesis) && b !in store && ParentsFine(store, hd)
    ensures Past(store[b := hd], b) == AllAncestors(store, hd.parents)
  {
    hide Reach, Rooted;
    var store' := store[b := hd];
    forall x ensures x in Past(store', b) <==> x in AllAncestors(store, hd.parents) {
      ReachUnfold(store', store'.Keys, b, x);
      forall p | p in hd.parents ensures (Reach(store', store'.Keys, p, x) <==> Reach(store, store.Keys, p, x)) && !Reach(store, store.Keys, p, b) {
        OldReach(store, genesis, b, hd, p, x);
      }
    }
  }
}
