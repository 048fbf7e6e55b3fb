/** Inserting blocks (core/blockchain.go): stored ancestor lists, tips and the run of insertions. */
module BlockChains {
  import opened Basics
  import opened Transactions
  import opened HashArrays
  import opened Dag
  import opened HeaderChains
  import opened Heights
  import opened Insertion
  import opened BlockTips

  /** HeaderMap.Hashes: the keys in some order. */
  method Hashes(m: HeaderMap) returns (s: seq<Hash>)
    ensures Elements(s) == m.Keys
  {
    s := [];
    var rest := m.Keys;
    while rest != {}
      invariant rest <= m.Keys && Elements(s) == m.Keys - rest
      decreases rest
    {
      var h :| h in rest;
      assert Elements(s + [h]) == Elements(s) + {h};
      s := s + [h];
      rest := rest - {h};
    }
  }

  lemma UniqElements(s: seq<Hash>)
    ensures Elements(FirstOccurrences(s)) == Elements(s) && NoDup(FirstOccurrences(s))
  {
    FirstOccurrencesFacts(s);
  }

  lemma WithoutElements(s: seq<Hash>, gone: set<Hash>)
    ensures Elements(Without(s, gone)) == Elements(s) - gone
    ensures NoDup(s) ==> NoDup(Without(s, gone))
  {
    WithoutFacts(s, gone);
  }

  /** All hashes of the given lists and the blocks they belong to. */
  ghost function AllOf(tips: map<Hash, BlockDag>): set<Hash> {
    tips.Keys + set h, x | h in tips && x in tips[h].ancestors :: x
  }

  class BlockChain {
    const hc: HeaderChain
    var dags: map<Hash, BlockDag>
    var tips: map<Hash, BlockDag>
    ghost var inserted: set<Hash>

    /** A chain holding genesis alone. */
    constructor (genesis: Hash, header: Header)
      requires header.parents == [] && header.height == 0 && header.nr == 0
      ensures Valid() && fresh(hc) && hc.genesis == genesis && hc.store == map[genesis := header] && inserted == {} && dags.Keys == tips.Keys == {genesis}
    {
      var chain := new HeaderChain(genesis, header);
      hc := chain;
      dags := map[genesis := BlockDag(genesis, genesis, [])];
      tips := dags;
      inserted := {};
      new;
      NothingToSearch(hc.store, genesis);
    }

    ghost predicate GraphOk()
      reads this, hc
    {
      && hc.CacheOk() && (forall h :: h in hc.ancestorCache ==> h in hc.store)
      && Rooted(hc.store, hc.genesis) && FinalizedBelow(hc.store)
      && DagsOk(hc.store, dags) && DagsOk(hc.store, tips) && hc.genesis in dags && dags[hc.genesis].cp == hc.genesis
    }

    ghost predicate Valid()
      reads this, hc
    {
      && GraphOk()
      && Antichain(hc.store, tips.Keys) && inserted <= dags.Keys
      && forall x :: x in inserted ==> x in hc.store && Covered(hc.store, tips.Keys, x)
    }

    /** The parent recursion, as the block chain calls it. */
    method Search(parents: seq<Hash>, cp: Hash) returns (r: Option<HeaderMap>)
      requires GraphOk() && forall p :: p in parents ==> p in hc.store
      modifies hc`ancestorCache
      ensures GraphOk()
      ensures r.Some? <==> cp in hc.store && Finalized(hc.store[cp])
      ensures r.Some? ==> r.value.Keys == SearchSet(hc.store, cp, parents)
    {
      hide Exact, SearchSet, DagsOk, Rooted, FinalizedBelow, CorrectEntry, ErrorOf, ErrorFree, Grown;
      if cp !in hc.store || !Finalized(hc.store[cp]) {
        return None;
      }
      ghost var keys := hc.ancestorCache.Keys;
      var isCp, ancestors, unloaded, err;
      ghost var done;
      isCp, ancestors, unloaded, err, done := hc.Collect(parents, cp);
      KeysStored(hc.store, hc.genesis, keys, hc.ancestorCache.Keys);
      NoSearchError(hc.store, hc.genesis, cp);
      assert parents[..done] == parents;
      NothingUnloaded(hc.store, hc.genesis, cp, parents, isCp, ancestors, unloaded);
      if err != NoError || |unloaded| > 0 {
        return None;
      }
      FoundSet(hc.store, cp, parents, isCp, ancestors, unloaded);
      return Some(ancestors);
    }

    /** The stored list of a block, or one made by the recursion from its own checkpoint. */
    method DagFor(h: Hash) returns (r: Option<BlockDag>)
      requires GraphOk() && h in hc.store
      modifies hc`ancestorCache
      ensures GraphOk()
      ensures r.Some? <==> CpReady(hc.store, dags, h)
      ensures r.Some? ==> DagOk(hc.store, h, r.value) && r.value.cp == CpOf(hc.store, dags, h)
      ensures h in dags ==> r == Some(dags[h])
    {
      hide DagOk, Rooted, FinalizedBelow, CorrectEntry;
      if h in dags {
        return Some(dags[h]);
      }
      var cp := if hc.store[h].height == 0 then h else hc.store[h].cp;
      ParentsStored(hc.store, hc.genesis, h);
      var found := Search(hc.store[h].parents, cp);
      if found == None {
        return None;
      }
      var list := Hashes(found.value);
      MadeDag(hc.store, h, BlockDag(h, cp, list));
      return Some(BlockDag(h, cp, list));
    }

    /** The stored list of a checkpoint, made and saved if there is none. */
    method EnsureCpDag(cp: Hash) returns (r: Option<BlockDag>)
      requires GraphOk() && cp in hc.store
      modifies this`dags, hc`ancestorCache
      ensures GraphOk() && Extended(hc.store, old(dags), dags)
      ensures r.Some? <==> old(CpReady(hc.store, dags, cp))
      ensures r.Some? ==> cp in dags && dags[cp] == r.value && DagOk(hc.store, cp, r.value)
    {
      hide DagOk, Rooted, FinalizedBelow, CorrectEntry, SearchSet;
      if cp in dags {
        return Some(dags[cp]);
      }
      OnlyGenesisIsLowest(hc.store, hc.genesis, cp);
      var cpCp := if hc.store[cp].height == 0 then cp else hc.store[cp].cp;
      ParentsStored(hc.store, hc.genesis, cp);
      var found := Search(hc.store[cp].parents, cpCp);
      if found == None {
        return None;
      }
      var list := Hashes(found.value);
      var d := BlockDag(cp, hc.store[cp].cp, list);
      CpDagOk(hc.store, hc.genesis, d, cpCp);
      dags := dags[cp := d];
      return Some(d);
    }

    /** CollectAncestorsHashesByTips: the lists of the given blocks and the blocks themselves, from checkpoint `cp` on. */
    method CollectHashes(from: map<Hash, BlockDag>, cp: Hash) returns (r: Option<seq<Hash>>)
      requires GraphOk() && cp in hc.store
      modifies this`dags, hc`ancestorCache
      ensures GraphOk() && Extended(hc.store, old(dags), dags)
      ensures r.Some? <==> old(CpReady(hc.store, dags, cp)) && forall h :: h in from ==> Linked(from[h], cp)
      ensures r.Some? ==> cp in dags && NoDup(r.value) && Elements(r.value) == Contributions(from, Olds(hc.store, dags[cp]), cp)
    {
      hide DagOk, Rooted, FinalizedBelow, CorrectEntry, Contributions, FirstOccurrences, NoDup, Without, Elements, Extended, Olds;
      var cpDag := EnsureCpDag(cp);
      if cpDag == None {
        return None;
      }
      ghost var gone := Olds(hc.store, cpDag.value);
      var acc: seq<Hash> := [];
      var rest := from.Keys;
      CollectStart(from, gone, cp);
      while rest != {}
        invariant GraphOk() && Extended(hc.store, old(dags), dags) && cp in dags && dags[cp] == cpDag.value
        invariant rest <= from.Keys && NoDup(acc) && Elements(acc) == Contributions(from - rest, gone, cp)
        invariant forall h :: h in from && h !in rest ==> Linked(from[h], cp)
        decreases rest
      {
        var h :| h in rest;
        var tip := from[h];
        if tip.hash != cp && tip.cp != cp && cp !in tip.ancestors {
          return None;
        }
        CollectStep(from, rest, h, cp, gone, acc);
        rest := rest - {h};
        if tip.hash == cp {
          continue;
        }
        if tip.cp == cp {
          acc := Uniq(acc + tip.ancestors + [tip.hash]);
          continue;
        }
        var left := LeaveOut(tip.ancestors, cp, cpDag.value.ancestors);
        assert Elements(left) == Elements(tip.ancestors) - {cp} - gone by { LeftOut(hc.store, cpDag.value); }
        acc := Uniq(acc + left + [tip.hash]);
      }
      assert from - rest == from;
      return Some(acc);
    }

    /** The list without the checkpoint and the finalised blocks the checkpoint's own list holds. */
    method LeaveOut(list: seq<Hash>, cp: Hash, own: seq<Hash>) returns (r: seq<Hash>)
      ensures Elements(r) == Elements(list) - {cp} - (set x | x in own && x in hc.store && hc.store[x].height > 0 && hc.store[x].nr > 0)
    {
      var gone := set x | x in list && (x == cp || (x in hc.store && hc.store[x].height > 0 && hc.store[x].nr > 0 && x in own));
      r := Without(list, gone);
      WithoutElements(list, gone);
    }

    // ---------- Tips ----------

    /** Finalised tips are dropped, unless there are no others. */
    method GetTips() returns (r: map<Hash, BlockDag>)
      modifies this`tips
      ensures var left := Unfinalized(hc.store, old(tips));
        if left == map[] then r == old(tips) && tips == old(tips) else r == left && tips == left
    {
      var left := Unfinalized(hc.store, tips);
      if left == map[] {
        return tips;
      }
      tips := left;
      return left;
    }

    method AddTips(d: BlockDag)
      modifies this`tips
      ensures tips == (if Unfinalized(hc.store, old(tips)) == map[] then old(tips) else Unfinalized(hc.store, old(tips)))
                        [d.hash := d.(ancestors := FirstOccurrences(d.ancestors))]
    {
      var t := GetTips();
      var list := Uniq(d.ancestors);
      tips := t[d.hash := d.(ancestors := list)];
    }

    method RemoveTips(hashes: seq<Hash>)
      modifies this`tips
      ensures tips == (if Unfinalized(hc.store, old(tips)) == map[] then old(tips) else Unfinalized(hc.store, old(tips))) - Elements(hashes)
    {
      hide Elements, Unfinalized;
      var t := GetTips();
      ghost var t0 := t;
      RemoveNone(t0);
      assert hashes[..0] == [];
      for i := 0 to |hashes|
        invariant t == t0 - Elements(hashes[..i])
      {
        RemoveMore(t0, hashes, i);
        t := t - {hashes[i]};
      }
      assert hashes[..|hashes|] == hashes;
      tips := t;
    }

    // ---------- Insertion ----------

    /** Writing the block: the search cache and all stored lists stay right. */
    method WriteHeader(b: Hash, hd: Header)
      requires GraphOk() && b !in hc.store && ParentsFine(hc.store, hd) && !Finalized(hd)
      modifies hc`store
      ensures GraphOk() && hc.store == old(hc.store)[b := hd]
    {
      hide DagsOk, Rooted, FinalizedBelow, CorrectEntry, ParentsFine;
      ghost var store := hc.store;
      GrownRanked(store, hc.genesis, b, hd);
      OldDags(store, hc.genesis, b, hd, dags);
      OldDags(store, hc.genesis, b, hd, tips);
      forall h | h in hc.ancestorCache ensures CorrectEntry(store[b := hd], hc.genesis, h, hc.ancestorCache[h]) {
        CompleteEntry(store, hc.genesis, h, hc.ancestorCache[h], b, hd);
      }
      RootedRanked(store[b := hd], hc.genesis);
      hc.store := hc.store[b := hd];
    }

    /** The lists of the parents, without genesis. */
    method ParentDags(parents: seq<Hash>, cp: Hash) returns (r: Option<map<Hash, BlockDag>>)
      requires GraphOk() && cp in hc.store && Finalized(hc.store[cp])
      requires forall p :: p in parents ==> p in hc.store && (p == cp || (!Finalized(hc.store[p]) && hc.store[p].cp == cp))
      modifies hc`ancestorCache
      ensures GraphOk()
      ensures r.Some? && SharesCp(r.value, cp) && r.value.Keys == Elements(parents) - {cp}
      ensures forall p :: p in r.value ==> p in hc.store && Elements(r.value[p].ancestors) == SearchSet(hc.store, cp, hc.store[p].parents)
    {
      hide DagOk, Rooted, FinalizedBelow, CorrectEntry, SearchSet, Elements, SharesCp;
      var from: map<Hash, BlockDag> := map[];
      ghost var store := hc.store;
      NoParentsYet(parents, cp, store);
      for i := 0 to |parents|
        invariant GraphOk() && hc.store == store
        invariant ParentLists(store, parents[..i], cp, from)
      {
        var p := parents[i];
        assert p in parents;
        if p == cp {
          ParentSkipped(store, parents, i, cp, from);
          continue;
        }
        var d := DagFor(p);
        if d == None {
          return None;
        }
        var list := Difference(d.value.ancestors, [hc.genesis]);
        var unique := Uniq(list);
        WithoutGenesis(store, hc.genesis, p, cp, d.value);
        ParentAdded(store, parents, i, cp, from, d.value.(ancestors := unique));
        from := from[p := d.value.(ancestors := unique)];
      }
      assert parents[..|parents|] == parents;
      ListsDone(store, parents, cp, from);
      return Some(from);
    }

    /** The ancestor list of a new block. */
    method AncestorList(b: Hash, hd: Header) returns (r: Option<seq<Hash>>)
      requires GraphOk() && b in hc.store && hc.store[b] == hd && Over(hc.store, hd) && hd.parents != []
      modifies this`dags, hc`ancestorCache
      ensures GraphOk() && Extended(hc.store, old(dags), dags)
      ensures r.Some? <==> old(ListReady(hc.store, dags, hd))
      ensures r.Some? ==> NoDup(r.value) && Elements(r.value) == SearchSet(hc.store, hd.cp, hd.parents)
    {
      hide DagOk, Rooted, FinalizedBelow, CorrectEntry, SearchSet, SharesCp, AllOf, NoDup, Without, Elements, CpReady, Extended, Contributions, Olds,
        Linked;
      ExtendedRefl(hc.store, dags);
      var commonCp, known := hd.cp, [];
      if hd.cp in hd.parents {
        var d := DagFor(hd.cp);
        if d == None || d.value.cp !in hc.store {
          return None;
        }
        commonCp, known := d.value.cp, d.value.ancestors + [d.value.cp];
      }
      var from := ParentDags(hd.parents, hd.cp);
      if from == None {
        return None;
      }
      ChainIsSearch(hc.store, hc.genesis, hd, commonCp, from.value);
      SharedLinks(from.value, commonCp);
      var all := CollectHashes(from.value, commonCp);
      if all == None {
        return None;
      }
      SharedAll(from.value, Olds(hc.store, dags[commonCp]), commonCp);
      var list := Difference(all.value, known);
      WithoutElements(all.value, Elements(known));
      assert known == [] ==> Elements(known) == {} by { NoElements(); }
      return Some(list);
    }

    /** The new block becomes a tip, its ancestors cease to be tips, and the lists of all tips are saved. */
    method SaveTips(ghost store: Store, ghost hd: Header, d: BlockDag)
      requires hc.store == store[d.hash := hd] && d.hash !in store && !Finalized(hd) && NoDup(d.ancestors) && d.hash !in Elements(d.ancestors)
      requires forall t :: t in tips ==> t in store
      modifies this`tips, this`dags
      ensures tips.Keys == TipsAfter(store, old(tips.Keys), d.hash, Elements(d.ancestors)) && Unfinalized(hc.store, tips) == tips
      ensures d.hash in tips && tips[d.hash] == d && forall t :: t in tips && t != d.hash ==> t in old(tips) && tips[t] == old(tips)[t]
      ensures dags == old(dags) + tips
    {
      hide NoDup, Elements, TipsAfter, FirstOccurrences, Unfinalized;
      TipsResult(store, hc.store, d.hash, hd, tips, d);
      AddTips(d);
      RemoveTips(d.ancestors);
      var saved := GetTips();
      dags := dags + saved;
    }

    method InsertBlock(b: Hash, hd: Header) returns (ok: bool)
      requires Valid() && b !in hc.store && ParentsFine(hc.store, hd) && Over(hc.store, hd)
      modifies this, hc
      ensures Valid() && hc.store == old(hc.store)[b := hd]
      ensures if ok then
                && inserted == old(inserted) + {b} && b in dags && dags[b].cp == hd.cp && NoDup(dags[b].ancestors)
                && Elements(dags[b].ancestors) == SearchSet(hc.store, hd.cp, hd.parents)
                && tips.Keys == TipsAfter(old(hc.store), old(tips.Keys), b, Elements(dags[b].ancestors))
              else inserted == old(inserted) && tips == old(tips)
      ensures ok <==> ListReady(hc.store, old(dags), hd)
      ensures old(dags.Keys) <= dags.Keys
    {
      hide DagsOk, DagOk, Rooted, FinalizedBelow, CorrectEntry, SearchSet, NoDup, Elements, CpReady, Antichain, Covered, TipsAfter,
        ParentsFine, Over, HeaderChain.CacheOk, FirstOccurrences, Unfinalized, ListReady, Extended, CpOf;
      ghost var store0, tips0, genesis := hc.store, tips, hc.genesis;
      OverFacts(store0, b, hd);
      TipsStored(store0, tips0);
      Uninserted(store0, genesis, b, hd, tips0.Keys, inserted);
      WriteHeader(b, hd);
      ghost var dags0 := dags;
      var list := AncestorList(b, hd);
      ExtendedKeys(hc.store, dags0, dags);
      if list == None {
        return false;
      }
      var d := BlockDag(b, hd.cp, list.value);
      NewIsTip(store0, genesis, b, hd);
      ghost var lists := dags;
      SaveTips(store0, hd, d);
      NewDags(hc.store, b, d, lists, tips0, tips);
      GenesisIsNoTip(hc.store, genesis, tips);
      Inserted(store0, genesis, b, hd, tips0.Keys, inserted);
      inserted := inserted + {b};
      return true;
    }
  }

  lemma NoElements()
    ensures Elements<Hash>([]) == {}
  {
  }

  lemma OverFacts(store: Store, b: Hash, hd: Header)
    requires Over(store, hd) && ParentsFine(store, hd) && b !in store
    ensures Over(store[b := hd], hd) && hd.parents != [] && hd.cp in store && !Finalized(hd)
  {
  }

  lemma TipsStored(store: Store, tips: map<Hash, BlockDag>)
    requires DagsOk(store, tips)
    ensures forall t :: t in tips ==> t in store
  {
    forall t | t in tips ensures t in store { assert DagOk(store, t, tips[t]); }
  }

  /** In both cases allowed, the lists put together are what the recursion finds. */
  lemma ChainIsSearch(store: Store, genesis: Hash, hd: Header, commonCp: Hash, from: map<Hash, BlockDag>)
    requires Rooted(store, genesis) && Over(store, hd)
    requires hd.cp !in hd.parents ==> commonCp == hd.cp
    requires SharesCp(from, hd.cp) && from.Keys == Elements(hd.parents) - {hd.cp}
    requires forall p :: p in from ==> p in store && Elements(from[p].ancestors) == SearchSet(store, hd.cp, store[p].parents)
    ensures SharesCp(from, commonCp) && AllOf(from) == SearchSet(store, hd.cp, hd.parents)
    ensures hd.cp in hd.parents ==> from == map[] && SearchSet(store, hd.cp, hd.parents) == {}
  {
    hide SearchSet, Rooted;
    if hd.parents == [hd.cp] {
      CpAlone(store, hd.cp);
      assert hd.cp in hd.parents;
    } else {
      assert from.Keys == Elements(hd.parents);
      forall p | p in hd.parents ensures p in Expanding(store, hd.cp) {
        UnfinalizedExpands(store, genesis, hd.cp, p);
      }
      forall x ensures x in AllOf(from) <==> x in SearchSet(store, hd.cp, hd.parents) {
        ListsTogether(store, hd.cp, hd.parents, x);
        ListedIn(store, hd.cp, hd.parents, from, x);
      }
    }
  }

  lemma ListedIn(store: Store, cp: Hash, parents: seq<Hash>, from: map<Hash, BlockDag>, x: Hash)
    requires cp in store && from.Keys == Elements(parents)
    requires forall p :: p in from ==> p in store && Elements(from[p].ancestors) == SearchSet(store, cp, store[p].parents)
    ensures x in AllOf(from) <==> exists p :: p in parents && p in store && (x == p || x in SearchSet(store, cp, store[p].parents))
  {
    hide SearchSet;
    if x in AllOf(from) {
      if x in from {
        assert x in parents;
      } else {
        var h :| h in from && x in from[h].ancestors;
        assert h in parents && x in Elements(from[h].ancestors);
      }
    }
    if exists p :: p in parents && p in store && (x == p || x in SearchSet(store, cp, store[p].parents)) {
      var p :| p in parents && p in store && (x == p || x in SearchSet(store, cp, store[p].parents));
      assert p in from;
    }
  }

  lemma CpAlone(store: Store, cp: Hash)
    requires cp in store
    ensures SearchSet(store, cp, [cp]) == {}
  {
    hide Reach;
    var inner := Expanding(store, cp);
    forall x ensures x !in SearchSet(store, cp, [cp]) {
      ReachOne(store, inner, cp, x);
      ReachUnfold(store, inner, cp, x);
    }
  }

  /** A block that was only written leaves tips and coverage as they were. */
  lemma Uninserted(store: Store, genesis: Hash, b: Hash, hd: Header, tips: set<Hash>, inserted: set<Hash>)
    requires Rooted(store, genesis) && b !in store && tips <= store.Keys && Antichain(store, tips)
    requires forall x :: x in inserted ==> x in store && Covered(store, tips, x)
    ensures Antichain(store[b := hd], tips)
    ensures forall x :: x in inserted ==> x in store[b := hd] && Covered(store[b := hd], tips, x)
  {
    hide Reach, Rooted;
    var store' := store[b := hd];
    forall t, x | t in tips ensures Reach(store', store'.Keys, t, x) <==> Reach(store, store.Keys, t, x) {
      OldReach(store, genesis, b, hd, t, x);
    }
    forall x | x in inserted ensures Covered(store', tips, x) {
      assert Covered(store, tips, x);
    }
  }

  lemma Inserted(store: Store, genesis: Hash, b: Hash, hd: Header, tips: set<Hash>, inserted: set<Hash>)
    requires Rooted(store, genesis) && FinalizedBelow(store) && b !in store && ParentsFine(store, hd) && Over(store, hd)
    requires Antichain(store, tips) && forall x :: x in inserted ==> x in store && Covered(store, tips, x)
    ensures var tips' := TipsAfter(store, tips, b, SearchSet(store[b := hd], hd.cp, hd.parents));
      && Antichain(store[b := hd], tips')
      && forall x :: x in inserted + {b} ==> x in store[b := hd] && Covered(store[b := hd], tips', x)
  {
    hide Rooted, FinalizedBelow, ParentsFine, Antichain, Covered, SearchSet, TipsAfter;
    OverFacts(store, b, hd);
    AntichainKept(store, genesis, b, hd, tips);
    forall x | x in inserted + {b} ensures
      Covered(store[b := hd], TipsAfter(store, tips, b, SearchSet(store[b := hd], hd.cp, hd.parents)), x) {
      CoverKept(store, genesis, b, hd, tips, x);
    }
  }

  /** What the three tip operations leave. */
  lemma TipsResult(store: Store, store': Store, b: Hash, hd: Header, tips: map<Hash, BlockDag>, d: BlockDag)
    requires store' == store[b := hd] && b !in store && !Finalized(hd) && d.hash == b && NoDup(d.ancestors) && b !in Elements(d.ancestors)
    requires forall t :: t in tips ==> t in store
    ensures var left := Unfinalized(store', tips);
            var added := (if left == map[] then tips else left)[b := d.(ancestors := FirstOccurrences(d.ancestors))];
            var r := Unfinalized(store', added) - Elements(d.ancestors);
      && Unfinalized(store', added) != map[] && Unfinalized(store', r) == r && r != map[]
      && r.Keys == TipsAfter(store, tips.Keys, b, Elements(d.ancestors))
      && b in r && r[b] == d && (forall t :: t in r && t != b ==> t in tips && r[t] == tips[t])
  {
    NoDupIsKept(d.ancestors);
    hide FirstOccurrences, NoDup, Elements;
    var left := Unfinalized(store', tips);
    var added := (if left == map[] then tips else left)[b := d];
    assert b in Unfinalized(store', added);
    var r := Unfinalized(store', added) - Elements(d.ancestors);
    assert b in r;
    assert r.Keys == TipsAfter(store, tips.Keys, b, Elements(d.ancestors));
  }

  lemma NewDags(store': Store, b: Hash, d: BlockDag, dags: map<Hash, BlockDag>, tips0: map<Hash, BlockDag>, tips: map<Hash, BlockDag>)
    requires DagsOk(store', dags) && DagsOk(store', tips0) && b in tips && tips[b] == d
    requires forall t :: t in tips && t != b ==> t in tips0 && tips[t] == tips0[t]
    requires b in store' && d.hash == b && d.cp == store'[b].cp && d.cp in store'
    requires Elements(d.ancestors) == SearchSet(store', d.cp, store'[b].parents)
    ensures DagsOk(store', tips) && DagsOk(store', dags + tips)
  {
    assert DagOk(store', b, d);
    hide DagOk;
  }

  lemma GenesisIsNoTip(store: Store, genesis: Hash, tips: map<Hash, BlockDag>)
    requires Rooted(store, genesis) && Unfinalized(store, tips) == tips
    ensures genesis !in tips
  {
  }

  lemma RootedRanked(store: Store, genesis: Hash)
    requires Rooted(store, genesis)
    ensures Ranked(store)
  {
  }

  lemma CompleteEntry(store: Store, genesis: Hash, h: Hash, e: Collected, b: Hash, hd: Header)
    requires Rooted(store, genesis) && h in store && CorrectEntry(store, genesis, h, e) && b !in store && Rooted(store[b := hd], genesis)
    ensures CorrectEntry(store[b := hd], genesis, h, e)
  {
    hide Exact, ErrorOf;
    EntrySurvives(store, genesis, h, e, b, hd);
    NothingUnloaded(store, genesis, e.cp, [h], e.isCp, e.ancestors, e.unloaded);
  }

  /** The lists collected for the parents seen so far. */
  ghost predicate ParentLists(store: Store, parents: seq<Hash>, cp: Hash, from: map<Hash, BlockDag>)
    requires cp in store
  {
    && SharesCp(from, cp) && from.Keys == Elements(parents) - {cp}
    && forall p :: p in from ==> p in store && Elements(from[p].ancestors) == SearchSet(store, cp, store[p].parents)
  }

  lemma NoParentsYet(parents: seq<Hash>, cp: Hash, store: Store)
    requires cp in store
    ensures ParentLists(store, parents[..0], cp, map[])
  {
  }

  lemma ParentSkipped(store: Store, parents: seq<Hash>, i: nat, cp: Hash, from: map<Hash, BlockDag>)
    requires cp in store && i < |parents| && ParentLists(store, parents[..i], cp, from) && parents[i] == cp
    ensures ParentLists(store, parents[..i + 1], cp, from)
  {
    hide SearchSet;
    Next(parents, i);
  }

  lemma WithoutGenesis(store: Store, genesis: Hash, p: Hash, cp: Hash, d: BlockDag)
    requires Rooted(store, genesis) && cp in store && DagOk(store, p, d) && store[p].cp == cp && !Finalized(store[p])
    ensures d.hash == p && d.cp == cp
    ensures Elements(FirstOccurrences(Without(d.ancestors, Elements([genesis])))) == SearchSet(store, cp, store[p].parents)
  {
    hide Without, FirstOccurrences, ReachAny;
    var list := Without(d.ancestors, Elements([genesis]));
    WithoutElements(d.ancestors, Elements([genesis]));
    assert Elements([genesis]) == {genesis};
    UniqElements(list);
  }

  lemma ParentAdded(store: Store, parents: seq<Hash>, i: nat, cp: Hash, from: map<Hash, BlockDag>, d: BlockDag)
    requires cp in store && i < |parents| && ParentLists(store, parents[..i], cp, from) && parents[i] != cp && parents[i] in store
    requires d.hash == parents[i] && d.cp == cp && Elements(d.ancestors) == SearchSet(store, cp, store[parents[i]].parents)
    ensures ParentLists(store, parents[..i + 1], cp, from[parents[i] := d])
  {
    hide SearchSet, Elements;
    Next(parents, i);
  }

  lemma ListsDone(store: Store, parents: seq<Hash>, cp: Hash, from: map<Hash, BlockDag>)
    requires cp in store && ParentLists(store, parents, cp, from)
    ensures SharesCp(from, cp) && from.Keys == Elements(parents) - {cp}
    ensures forall p :: p in from ==> p in store && Elements(from[p].ancestors) == SearchSet(store, cp, store[p].parents)
  {
  }

  /** The list of the checkpoint is stored or can be made. */
  ghost predicate CpReady(store: Store, dags: map<Hash, BlockDag>, cp: Hash)
    requires cp in store
  {
    cp in dags || store[cp].height == 0 || (store[cp].cp in store && Finalized(store[store[cp].cp]))
  }

  /** The checkpoint a stored or newly made list is counted from. */
  ghost function CpOf(store: Store, dags: map<Hash, BlockDag>, h: Hash): Hash
    requires h in store
  {
    if h in dags then dags[h].cp else if store[h].height == 0 then h else store[h].cp
  }

  /** The lists needed for the ancestor list of a new block are stored or can be made. */
  ghost predicate ListReady(store: Store, dags: map<Hash, BlockDag>, hd: Header)
    requires hd.cp in store
  {
    && CpReady(store, dags, hd.cp)
    && (hd.cp in hd.parents ==> CpOf(store, dags, hd.cp) in store && CpReady(store, dags, CpOf(store, dags, hd.cp)))
  }

  /** `dags'` has further lists, made from the blocks' own finalised checkpoints. */
  ghost predicate Extended(store: Store, dags: map<Hash, BlockDag>, dags': map<Hash, BlockDag>) {
    && (forall h :: h in dags ==> h in dags' && dags'[h] == dags[h])
    && (forall h :: h in dags' && h !in dags ==>
          && h in store && store[h].height > 0 && dags'[h].cp == store[h].cp
          && store[h].cp in store && Finalized(store[store[h].cp]))
  }

  lemma ExtendedRefl(store: Store, dags: map<Hash, BlockDag>)
    ensures Extended(store, dags, dags)
  {
  }

  lemma ExtendedKeys(store: Store, dags: map<Hash, BlockDag>, dags': map<Hash, BlockDag>)
    requires Extended(store, dags, dags')
    ensures dags.Keys <= dags'.Keys && forall h :: h in dags ==> dags'[h] == dags[h]
  {
  }

  lemma OnlyGenesisIsLowest(store: Store, genesis: Hash, h: Hash)
    requires Rooted(store, genesis) && h in store && h != genesis
    ensures store[h].height > 0
  {
    LowestHasNoParents(store, genesis, h);
  }

  /** Counted from `cp`, or leading back to it. */
  ghost predicate Linked(tip: BlockDag, cp: Hash) {
    tip.hash == cp || tip.cp == cp || cp in tip.ancestors
  }

  /** The finalised blocks of a list. */
  ghost function Olds(store: Store, d: BlockDag): set<Hash> {
    set x | x in d.ancestors && x in store && store[x].height > 0 && store[x].nr > 0
  }

  /** What one list adds, from checkpoint `cp` on. */
  ghost function Contribution(tip: BlockDag, gone: set<Hash>, cp: Hash): set<Hash> {
    if tip.hash == cp then {}
    else if tip.cp == cp then Elements(tip.ancestors) + {tip.hash}
    else Elements(tip.ancestors) - {cp} - gone + {tip.hash}
  }

  ghost function Contributions(from: map<Hash, BlockDag>, gone: set<Hash>, cp: Hash): set<Hash> {
    set h, x | h in from && x in Contribution(from[h], gone, cp) :: x
  }

  lemma SharedLinks(from: map<Hash, BlockDag>, cp: Hash)
    requires SharesCp(from, cp)
    ensures forall h :: h in from ==> Linked(from[h], cp)
  {
  }

  lemma SharedAll(from: map<Hash, BlockDag>, gone: set<Hash>, cp: Hash)
    requires SharesCp(from, cp)
    ensures Contributions(from, gone, cp) == AllOf(from)
  {
    forall x ensures x in Contributions(from, gone, cp) <==> x in AllOf(from) {
      if x in from {
        assert x in Contribution(from[x], gone, cp);
      }
      if x in AllOf(from) && x !in from {
        var h :| h in from && x in from[h].ancestors;
        assert x in Contribution(from[h], gone, cp);
      }
    }
  }

  lemma LeftOut(store: Store, d: BlockDag)
    ensures Olds(store, d) == set x | x in d.ancestors && x in store && store[x].height > 0 && store[x].nr > 0
  {
  }

  ghost predicate SharesCp(from: map<Hash, BlockDag>, cp: Hash) {
    cp !in from && forall h :: h in from ==> from[h].cp == cp && from[h].hash == h
  }

  function Unfinalized(store: Store, tips: map<Hash, BlockDag>): map<Hash, BlockDag> {
    map t | t in tips && !(t in store && Finalized(store[t])) :: tips[t]
  }

  lemma RemoveNone(t: map<Hash, BlockDag>)
    ensures t == t - Elements([])
  {
  }

  lemma RemoveMore(t: map<Hash, BlockDag>, hashes: seq<Hash>, i: nat)
    requires i < |hashes|
    ensures t - Elements(hashes[..i + 1]) == t - Elements(hashes[..i]) - {hashes[i]}
  {
    Next(hashes, i);
  }

  lemma CollectStart(from: map<Hash, BlockDag>, gone: set<Hash>, cp: Hash)
    ensures NoDup<Hash>([]) && Elements<Hash>([]) == Contributions(from - from.Keys, gone, cp)
  {
  }

  lemma CollectStep(from: map<Hash, BlockDag>, rest: set<Hash>, h: Hash, cp: Hash, gone: set<Hash>, acc: seq<Hash>)
    requires h in rest && h in from && Elements(acc) == Contributions(from - rest, gone, cp)
    ensures Contributions(from - (rest - {h}), gone, cp) == Elements(acc) + Contribution(from[h], gone, cp)
    ensures forall list: seq<Hash> ::
      && NoDup(FirstOccurrences(acc + list + [from[h].hash]))
      && Elements(FirstOccurrences(acc + list + [from[h].hash])) == Elements(acc) + (Elements(list) + {from[h].hash})
  {
    hide Contribution;
    var less, more := from - rest, from - (rest - {h});
    forall x ensures x in Contributions(more, gone, cp) <==> x in Contributions(less, gone, cp) || x in Contribution(from[h], gone, cp) {
      assert forall k :: k in more ==> k == h || (k in less && less[k] == more[k]);
      assert forall k :: k in less ==> k in more && less[k] == more[k];
      assert h in more && more[h] == from[h];
    }
    forall list: seq<Hash> ensures NoDup(FirstOccurrences(acc + list + [from[h].hash])) &&
      Elements(FirstOccurrences(acc + list + [from[h].hash])) == Elements(acc) + (Elements(list) + {from[h].hash}) {
      UniqElements(acc + list + [from[h].hash]);
      assert Elements(acc + list + [from[h].hash]) == Elements(acc) + Elements(list) + {from[h].hash};
    }
  }

  lemma SomeElement(s: seq<Hash>)
    ensures s != [] ==> exists x :: x in s && x in Elements(s)
  {
    if s != [] {
      assert s[0] in Elements(s);
    }
  }

  lemma LowestHasNoParents(store: Store, genesis: Hash, h: Hash)
    requires Rooted(store, genesis) && h in store
    ensures store[h].height == 0 ==> store[h].parents == []
  {
    if store[h].parents != [] {
      var p := store[h].parents[0];
      assert p in store[h].parents && store[p].height < store[h].height;
    }
  }

  lemma CpDagOk(store: Store, genesis: Hash, d: BlockDag, cpCp: Hash)
    requires Rooted(store, genesis) && d.hash in store && d.cp == store[d.hash].cp
    requires cpCp == (if store[d.hash].height == 0 then d.hash else d.cp) && cpCp in store
    requires Elements(d.ancestors) == SearchSet(store, cpCp, store[d.hash].parents)
    ensures DagOk(store, d.hash, d)
  {
    hide SearchSet;
    var h := d.hash;
    if store[h].height == 0 {
      LowestHasNoParents(store, genesis, h);
      NothingToSearch(store, cpCp);
      SomeElement(d.ancestors);
      if d.cp in store {
        NothingToSearch(store, d.cp);
      }
    }
  }

  lemma KeysStored(store: Store, genesis: Hash, before: set<Hash>, after: set<Hash>)
    requires Rooted(store, genesis) && Grown(store, before, after) && before <= store.Keys
    ensures forall h :: h in after ==> h in store
  {
  }

  lemma ParentsStored(store: Store, genesis: Hash, h: Hash)
    requires Rooted(store, genesis) && h in store
    ensures forall p :: p in store[h].parents ==> p in store
  {
  }

  lemma NothingUnloaded(store: Store, genesis: Hash, cp: Hash, starts: seq<Hash>, isCp: bool, ancestors: HeaderMap, unloaded: seq<Hash>)
    requires Rooted(store, genesis) && cp in store && Exact(store, cp, starts, isCp, ancestors, unloaded)
    requires forall p :: p in starts ==> p in store
    ensures |unloaded| == 0
  {
    hide Exact, Rooted;
    if |unloaded| > 0 {
      SomeMissing(store, genesis, cp, starts, isCp, ancestors, unloaded);
    }
  }

  lemma MadeDag(store: Store, h: Hash, d: BlockDag)
    requires h in store && d.hash == h && d.cp == (if store[h].height == 0 then h else store[h].cp)
    requires d.cp in store && Elements(d.ancestors) == SearchSet(store, d.cp, store[h].parents)
    ensures DagOk(store, h, d)
  {
  }
}
