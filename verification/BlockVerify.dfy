/** The graph part of VerifyBlock and the run of insertBlocks (core/blockchain.go, core/headerchain.go). */
module BlockVerify {
  import opened Basics
  import opened Transactions
  import opened Dag
  import opened HeaderChains
  import opened Heights
  import opened Insertion
  import opened BlockTips
  import opened BlockChains

  // ---------- CollectAncestorsAftCpByTips ----------

  /** The given blocks that have lists, and what their lists hold. */
  ghost function Gathered(dags: map<Hash, BlockDag>, parents: seq<Hash>): set<Hash> {
    set p, x | p in parents && p in dags && x in Elements(dags[p].ancestors) + {p} :: x
  }

  /** Some list is counted from `cp` or holds it. */
  ghost predicate LeadsTo(dags: map<Hash, BlockDag>, parents: seq<Hash>, cp: Hash) {
    exists p :: p in parents && p in dags && (dags[p].cp == cp || cp in dags[p].ancestors)
  }

  method CollectByTips(bc: BlockChain, parents: seq<Hash>, cp: Hash) returns (isCp: bool, ancestors: set<Hash>, unloaded: seq<Hash>)
    requires bc.GraphOk() && cp in bc.hc.store
    modifies bc`dags, bc.hc`ancestorCache
    ensures bc.GraphOk() && Extended(bc.hc.store, old(bc.dags), bc.dags)
    ensures Elements(unloaded) == Elements(parents) - old(bc.dags).Keys
    ensures isCp <==> LeadsTo(old(bc.dags), parents, cp)
    ensures if old(CpReady(bc.hc.store, bc.dags, cp)) then
              cp in bc.dags && ancestors == Gathered(old(bc.dags), parents) - {cp} - Olds(bc.hc.store, bc.dags[cp])
            else ancestors == {}
  {
    hide BlockChain.GraphOk, Extended, CpReady, Gathered, LeadsTo, Olds, Elements;
    var found: set<Hash>;
    isCp, found, unloaded := ReadTips(bc, parents, cp);
    GatheredStored(bc, parents);
    var cpDag := bc.EnsureCpDag(cp);
    if cpDag == None {
      return isCp, {}, unloaded;
    }
    assert Olds(bc.hc.store, cpDag.value) == set x | x in cpDag.value.ancestors && x in bc.hc.store && bc.hc.store[x].height > 0 && bc.hc.store[x].nr > 0
      by { LeftOut(bc.hc.store, cpDag.value); }
    ancestors := set x | x in found && x in bc.hc.store && x != cp
      && !(bc.hc.store[x].height > 0 && bc.hc.store[x].nr > 0 && x in cpDag.value.ancestors);
  }

  /** The lists of the given blocks put together; blocks without a list are reported. */
  method ReadTips(bc: BlockChain, parents: seq<Hash>, cp: Hash) returns (isCp: bool, found: set<Hash>, unloaded: seq<Hash>)
    requires bc.GraphOk()
    ensures Elements(unloaded) == Elements(parents) - bc.dags.Keys
    ensures isCp <==> LeadsTo(bc.dags, parents, cp)
    ensures found == Gathered(bc.dags, parents)
  {
    hide BlockChain.GraphOk, Gathered, LeadsTo, Elements;
    isCp, found, unloaded := false, {}, [];
    ReadNone(bc.dags, cp);
    assert parents[..0] == [];
    for i := 0 to |parents|
      invariant Elements(unloaded) == Elements(parents[..i]) - bc.dags.Keys
      invariant isCp <==> LeadsTo(bc.dags, parents[..i], cp)
      invariant found == Gathered(bc.dags, parents[..i])
    {
      ReadMore(bc.dags, parents, i, cp, unloaded);
      var p := parents[i];
      if p !in bc.dags {
        unloaded := unloaded + [p];
        continue;
      }
      if bc.dags[p].cp == cp || cp in bc.dags[p].ancestors {
        isCp := true;
      }
      found := found + (set x | x in bc.dags[p].ancestors) + {p};
    }
    assert parents[..|parents|] == parents;
  }

  lemma ReadNone(dags: map<Hash, BlockDag>, cp: Hash)
    ensures Elements<Hash>([]) == {} && !LeadsTo(dags, [], cp) && Gathered(dags, []) == {}
  {
  }

  lemma ReadMore(dags: map<Hash, BlockDag>, parents: seq<Hash>, i: nat, cp: Hash, unloaded: seq<Hash>)
    requires i < |parents|
    ensures var p := parents[i];
      && Elements(parents[..i + 1]) == Elements(parents[..i]) + {p} && Elements(unloaded + [p]) == Elements(unloaded) + {p}
      && (LeadsTo(dags, parents[..i + 1], cp) <==> LeadsTo(dags, parents[..i], cp) || (p in dags && (dags[p].cp == cp || cp in dags[p].ancestors)))
      && Gathered(dags, parents[..i + 1]) ==
           Gathered(dags, parents[..i]) + (if p in dags then (set x | x in dags[p].ancestors) + {p} else {})
  {
    var p := parents[i];
    assert parents[..i + 1] == parents[..i] + [p];
    assert p in parents[..i + 1];
    forall x ensures x in Gathered(dags, parents[..i + 1]) <==>
      x in Gathered(dags, parents[..i]) || (p in dags && (x in dags[p].ancestors || x == p)) {
      GatheredFrom(dags, parents[..i], x);
      GatheredFrom(dags, parents[..i + 1], x);
    }
  }

  lemma GatheredFrom(dags: map<Hash, BlockDag>, parents: seq<Hash>, x: Hash)
    ensures x in Gathered(dags, parents) <==> exists p :: p in parents && p in dags && (x == p || x in dags[p].ancestors)
  {
    if p :| p in parents && p in dags && (x == p || x in dags[p].ancestors) {
      assert x in Elements(dags[p].ancestors) + {p};
    }
  }

  lemma GatheredStored(bc: BlockChain, parents: seq<Hash>)
    requires bc.GraphOk()
    ensures Gathered(bc.dags, parents) <= bc.hc.store.Keys
  {
    forall p, x | p in parents && p in bc.dags && x in Elements(bc.dags[p].ancestors) + {p} ensures x in bc.hc.store {
      ListStored(bc.hc.store, p, bc.dags[p], x);
    }
  }

  lemma ListStored(store: Store, h: Hash, d: BlockDag, x: Hash)
    requires DagOk(store, h, d) && x in Elements(d.ancestors) + {h}
    ensures x in store
  {
    hide ReachAny;
    if x != h {
      assert x in d.ancestors && d.cp in store;
      OnlyStored(store, d.cp);
    }
  }

  // ---------- What the lists amount to ----------

  /** A list holds only ancestors of its block. */
  lemma ListIsPast(store: Store, genesis: Hash, h: Hash, d: BlockDag, x: Hash)
    requires Rooted(store, genesis) && DagOk(store, h, d) && x in d.ancestors
    ensures x in Past(store, h) && store[x].parents != []
  {
    hide Reach, Past;
    assert x in Elements(d.ancestors);
    var inner := Expanding(store, d.cp);
    var p :| p in store[h].parents && Reach(store, inner, p, x);
    OnlyStored(store, d.cp);
    ReachMore(store, inner, store.Keys, p, x);
    ParentInPast(store, h, p);
    PastOfPast(store, h, p, x);
  }

  lemma PastStored(store: Store, h: Hash, x: Hash)
    requires x in Past(store, h)
    ensures x in store
  {
  }

  /** The search after a checkpoint meets neither the checkpoint nor its past. */
  lemma SearchAvoidsPast(store: Store, cp: Hash, starts: seq<Hash>, x: Hash)
    requires Checkpoint(store, cp) && x in SearchSet(store, cp, starts)
    ensures x != cp && x !in Past(store, cp)
  {
    hide ReachAny, Past;
  }

  /** Leaving out the checkpoint and its own finalised ancestors leaves out nothing the search finds. */
  lemma NothingLeftOut(store: Store, genesis: Hash, cp: Hash, d: BlockDag, starts: seq<Hash>)
    requires Rooted(store, genesis) && Checkpoint(store, cp) && DagOk(store, cp, d)
    ensures SearchSet(store, cp, starts) - {cp} - Olds(store, d) == SearchSet(store, cp, starts)
  {
    hide SearchSet, DagOk, Checkpoint, Past;
    NeedsFinalized(store, cp);
    forall x | x in SearchSet(store, cp, starts) ensures x != cp && x !in Olds(store, d) {
      SearchAvoidsPast(store, cp, starts, x);
      if x in Olds(store, d) {
        ListIsPast(store, genesis, cp, d, x);
      }
    }
  }

  /** Every list of a checkpoint is left out altogether. */
  lemma AllLeftOut(store: Store, genesis: Hash, cp: Hash, d: BlockDag)
    requires Rooted(store, genesis) && Checkpoint(store, cp) && DagOk(store, cp, d)
    ensures Elements(d.ancestors) - Olds(store, d) == {}
  {
    hide DagOk, Past;
    forall x | x in d.ancestors ensures x in Olds(store, d) {
      ListIsPast(store, genesis, cp, d, x);
      PastStored(store, cp, x);
      OnlyGenesisIsLowest(store, genesis, x);
    }
  }

  /** Verified blocks over `cp` are looked behind. */
  lemma OverCpExpands(store: Store, genesis: Hash, cp: Hash, p: Hash)
    requires Rooted(store, genesis) && Checkpoint(store, cp) && p in store && p != genesis && Verified(store, p) && store[p].cp == cp
    ensures p in Expanding(store, cp)
  {
    hide Reach;
    ReachDescends(store, store.Keys, p, cp);
    if p in Past(store, cp) {
      ReachDescends(store, store.Keys, cp, p);
    }
  }

  /** Blocks over one checkpoint and their lists are what the search from them finds. */
  lemma GatheredIsSearch(store: Store, genesis: Hash, dags: map<Hash, BlockDag>, cp: Hash, parents: seq<Hash>)
    requires Rooted(store, genesis) && DagsOk(store, dags) && AllVerified(store, genesis) && Checkpoint(store, cp)
    requires forall p :: p in parents ==> p in dags && p != genesis && store[p].cp == cp
    ensures Gathered(dags, parents) == SearchSet(store, cp, parents)
  {
    hide SearchSet, Expanding, Checkpoint;
    NeedsFinalized(store, cp);
    forall p | p in parents ensures p in store && p in Expanding(store, cp) && Elements(dags[p].ancestors) == SearchSet(store, cp, store[p].parents) {
      assert DagOk(store, p, dags[p]) && Verified(store, p);
      OverCpExpands(store, genesis, cp, p);
      OnlyGenesisIsLowest(store, genesis, p);
    }
    forall x ensures x in Gathered(dags, parents) <==> x in SearchSet(store, cp, parents) {
      ListsTogether(store, cp, parents, x);
      GatheredFrom(dags, parents, x);
      assert forall p :: p in parents ==> (x in dags[p].ancestors <==> x in Elements(dags[p].ancestors));
    }
  }

  /** The block goes on its checkpoint alone, or on blocks over the same checkpoint. */
  ghost predicate OneCp(store: Store, genesis: Hash, hd: Header) {
    hd.parents == [hd.cp] || forall p :: p in hd.parents ==> p in store && p != genesis && store[p].cp == hd.cp
  }

  /** A DAG in which every block was verified and inserted: all have lists, and each is over one checkpoint. */
  ghost predicate Whole(store: Store, genesis: Hash, dags: map<Hash, BlockDag>) {
    && dags.Keys == store.Keys && SlotsDescend(store) && AllVerified(store, genesis)
    && AllOneCp(store, genesis)
  }

  ghost predicate AllOneCp(store: Store, genesis: Hash) {
    forall h :: h in store && h != genesis ==> OneCp(store, genesis, store[h])
  }

  /** Where all lists are stored, none is made. */
  lemma NothingMade(store: Store, dags: map<Hash, BlockDag>, dags': map<Hash, BlockDag>)
    requires Extended(store, dags, dags') && dags.Keys == store.Keys
    ensures dags' == dags
  {
  }

  /** Over one checkpoint the lists amount to what the search from the parents finds. */
  lemma AfterCpIsSearch(store: Store, genesis: Hash, dags: map<Hash, BlockDag>, cp: Hash, parents: seq<Hash>)
    requires Rooted(store, genesis) && DagsOk(store, dags) && AllVerified(store, genesis) && Checkpoint(store, cp) && cp in dags
    requires parents == [cp] || forall p :: p in parents ==> p in dags && p != genesis && store[p].cp == cp
    ensures Gathered(dags, parents) - {cp} - Olds(store, dags[cp]) == SearchSet(store, cp, parents)
  {
    hide SearchSet, AllVerified, Rooted, Checkpoint, Gathered, Olds;
    NeedsFinalized(store, cp);
    assert DagOk(store, cp, dags[cp]);
    if parents == [cp] {
      CpAlone(store, cp);
      AllLeftOut(store, genesis, cp, dags[cp]);
      GatheredOne(dags, cp);
    } else {
      GatheredIsSearch(store, genesis, dags, cp, parents);
      NothingLeftOut(store, genesis, cp, dags[cp], parents);
    }
  }

  lemma GatheredOne(dags: map<Hash, BlockDag>, p: Hash)
    requires p in dags
    ensures Gathered(dags, [p]) == Elements(dags[p].ancestors) + {p}
  {
    forall x ensures x in Gathered(dags, [p]) <==> x in Elements(dags[p].ancestors) + {p} {
      GatheredFrom(dags, [p], x);
      assert p in [p];
    }
  }

  // ---------- IsAncestorByTips ----------

  /** The answer for a block: its ancestors, but for its own checkpoint when that is neither genesis nor a parent. */
  ghost predicate Answered(store: Store, genesis: Hash, h: Hash, a: Hash)
    requires h in store
  {
    a in Past(store, h) && (a == store[h].cp ==> a == genesis || a in store[h].parents)
  }

  lemma AnswerFacts(store: Store, genesis: Hash, h: Hash, a: Hash)
    requires Rooted(store, genesis) && AllVerified(store, genesis) && h in store && h != genesis && a in store
    ensures var cp := store[h].cp;
      && cp in store
      && (h == a ==> !Answered(store, genesis, h, a))
      && (h != a && (a == genesis || a in store[h].parents) ==> Answered(store, genesis, h, a))
      && (store[a].nr > 0 && store[a].nr < store[cp].nr ==> Answered(store, genesis, h, a))
      && (a != genesis && a !in store[h].parents && !(store[a].nr > 0 && store[a].nr < store[cp].nr) ==>
            (Answered(store, genesis, h, a) <==> a in SearchSet(store, cp, store[h].parents)))
  {
    hide Reach, Past, ReachAny, Expanding;
    var cp := store[h].cp;
    assert Verified(store, h);
    NotOwnPast(store, h);
    AllFromGenesis(store, genesis, h);
    if a in store[h].parents {
      ParentInPast(store, h, a);
    }
    if a in Past(store, cp) {
      PastOfPastStored(store, h, cp, a);
      if a != genesis {
        OnlyGenesisIsLowest(store, genesis, a);
      }
    }
    PastIsAncestors(store, h);
    SearchIsDifference(store, genesis, cp, store[h].parents, a);
  }

  lemma PastOfPastStored(store: Store, a: Hash, b: Hash, c: Hash)
    requires Ranked(store) && b in Past(store, a) && c in Past(store, b)
    ensures c in Past(store, a)
  {
    hide Reach;
    PastOfPast(store, a, b, c);
  }

  /** In a whole DAG every block finds all its lists, and they amount to the search. */
  lemma WholeCount(store: Store, genesis: Hash, dags: map<Hash, BlockDag>, hd: Header)
    requires Rooted(store, genesis) && DagsOk(store, dags) && Whole(store, genesis, dags) && Checkpoint(store, hd.cp) && OneCp(store, genesis, hd)
    ensures hd.cp in dags && Elements(hd.parents) - dags.Keys == {}
    ensures Gathered(dags, hd.parents) - {hd.cp} - Olds(store, dags[hd.cp]) == SearchSet(store, hd.cp, hd.parents)
  {
    hide SearchSet, AllVerified, Rooted, Gathered, Olds, DagsOk;
    AfterCpIsSearch(store, genesis, dags, hd.cp, hd.parents);
  }

  /** The last step of IsAncestorByTips: whether the lists of the parents lead to `a`. */
  method InLists(bc: BlockChain, h: Hash, a: Hash) returns (r: Option<bool>)
    requires bc.GraphOk() && h in bc.hc.store && bc.hc.store[h].cp in bc.hc.store
    modifies bc`dags, bc.hc`ancestorCache
    ensures bc.GraphOk() && Extended(bc.hc.store, old(bc.dags), bc.dags)
    ensures r == None ==> exists p :: p in bc.hc.store[h].parents && p !in old(bc.dags)
    ensures Whole(bc.hc.store, bc.hc.genesis, old(bc.dags)) && h != bc.hc.genesis ==>
      r == Some(a in SearchSet(bc.hc.store, bc.hc.store[h].cp, bc.hc.store[h].parents))
  {
    hide Extended, Whole, Rooted, DagsOk, Gathered, Olds, SearchSet, Elements, CorrectEntry, FinalizedBelow;
    var hd := bc.hc.store[h];
    ghost var store, genesis, dags0 := bc.hc.store, bc.hc.genesis, bc.dags;
    if Whole(store, genesis, dags0) && h != genesis {
      WholeVerified(store, genesis, dags0, h);
      WholeCount(store, genesis, dags0, hd);
    }
    var isCp, ancestors, unloaded := CollectByTips(bc, hd.parents, hd.cp);
    ExtendedKeys(store, dags0, bc.dags);
    SomeUnloaded(unloaded, hd.parents, dags0);
    if |unloaded| > 0 {
      return None;
    }
    return Some(a in ancestors);
  }

  method IsAncestorByTips(bc: BlockChain, h: Hash, a: Hash) returns (r: Option<bool>)
    requires bc.GraphOk() && h in bc.hc.store && bc.hc.store[h].cp in bc.hc.store
    modifies bc`dags, bc.hc`ancestorCache
    ensures bc.GraphOk() && Extended(bc.hc.store, old(bc.dags), bc.dags)
    ensures r == None ==> a !in bc.hc.store || exists p :: p in bc.hc.store[h].parents && p !in old(bc.dags)
    ensures Whole(bc.hc.store, bc.hc.genesis, old(bc.dags)) && a in bc.hc.store && h != bc.hc.genesis ==>
      r == Some(Answered(bc.hc.store, bc.hc.genesis, h, a))
  {
    hide Extended, Whole, Rooted, DagsOk, SearchSet, Answered, CorrectEntry, FinalizedBelow;
    var hd := bc.hc.store[h];
    ExtendedRefl(bc.hc.store, bc.dags);
    if Whole(bc.hc.store, bc.hc.genesis, bc.dags) && a in bc.hc.store && h != bc.hc.genesis {
      WholeVerified(bc.hc.store, bc.hc.genesis, bc.dags, h);
      AnswerFacts(bc.hc.store, bc.hc.genesis, h, a);
    }
    if h == a {
      return Some(false);
    }
    if a == bc.hc.genesis || a in hd.parents {
      return Some(true);
    }
    if a !in bc.hc.store {
      return None;
    }
    if bc.hc.store[a].nr > 0 && bc.hc.store[a].nr < bc.hc.store[hd.cp].nr {
      return Some(true);
    }
    r := InLists(bc, h, a);
  }

  lemma WholeVerified(store: Store, genesis: Hash, dags: map<Hash, BlockDag>, h: Hash)
    requires Whole(store, genesis, dags) && h in store && h != genesis
    ensures AllVerified(store, genesis) && Checkpoint(store, store[h].cp) && OneCp(store, genesis, store[h])
  {
    assert Verified(store, h);
  }

  lemma SomeUnloaded(unloaded: seq<Hash>, parents: seq<Hash>, dags: map<Hash, BlockDag>)
    requires Elements(unloaded) == Elements(parents) - dags.Keys
    ensures |unloaded| > 0 ==> Elements(parents) - dags.Keys != {} && exists p :: p in parents && p !in dags
    ensures |unloaded| == 0 ==> forall p :: p in parents ==> p in dags
  {
    if |unloaded| > 0 {
      assert unloaded[0] in Elements(unloaded);
    }
    forall p | p in parents && p !in dags ensures p in unloaded {
      assert p in Elements(parents) && p in Elements(unloaded);
    }
  }

  // ---------- verifyBlockParents ----------

  /** The headers of the checkpoints that verification reads are stored. */
  predicate CpsStored(store: Store, hd: Header) {
    && hd.cp in store
    && (hd.cp in hd.parents ==> CommonCp(store, hd.cp) in store)
    && forall p :: p in hd.parents && p in store && !Finalized(store[p]) ==> store[p].cp in store
  }

  /** The checkpoint of a checkpoint; genesis is its own. */
  function CommonCp(store: Store, cp: Hash): Hash
    requires cp in store
  {
    if store[cp].height == 0 then cp else store[cp].cp
  }

  /** No unfinalised block is answered to be above another. */
  ghost predicate Unrelated(store: Store, genesis: Hash, ps: seq<Hash>) {
    forall p, q :: p in ps && q in ps && p in store && p != q && !Finalized(store[p]) ==> !Answered(store, genesis, p, q)
  }

  method CheckUnrelated(bc: BlockChain, ps: seq<Hash>) returns (r: Verdict)
    requires bc.GraphOk() && forall p :: p in ps ==> p in bc.hc.store && (!Finalized(bc.hc.store[p]) ==> bc.hc.store[p].cp in bc.hc.store)
    modifies bc`dags, bc.hc`ancestorCache
    ensures bc.GraphOk() && Extended(bc.hc.store, old(bc.dags), bc.dags)
    ensures Whole(bc.hc.store, bc.hc.genesis, old(bc.dags)) ==> (r == Fine <==> Unrelated(bc.hc.store, bc.hc.genesis, ps)) && r != Incomplete
  {
    hide BlockChain.GraphOk, Extended, Whole, Answered, Unrelated;
    ghost var store, genesis, dags0 := bc.hc.store, bc.hc.genesis, bc.dags;
    ExtendedRefl(store, dags0);
    for i := 0 to |ps|
      invariant bc.GraphOk() && Extended(store, dags0, bc.dags)
      invariant Whole(store, genesis, dags0) ==> forall j, q :: 0 <= j < i && q in ps ==> ApartFrom(store, genesis, ps[j], q)
    {
      assert ps[i] in ps;
      if !Finalized(bc.hc.store[ps[i]]) {
        r := CheckAgainst(bc, ps, ps[i], dags0);
        if r != Fine {
          RelatedAt(store, genesis, ps, ps[i]);
          return;
        }
      }
    }
    AllApart(store, genesis, ps);
    return Fine;
  }

  ghost predicate ApartFrom(store: Store, genesis: Hash, p: Hash, q: Hash) {
    p in store && p != q && !Finalized(store[p]) ==> !Answered(store, genesis, p, q)
  }

  lemma AllApart(store: Store, genesis: Hash, ps: seq<Hash>)
    ensures (forall j, q :: 0 <= j < |ps| && q in ps ==> ApartFrom(store, genesis, ps[j], q)) <==> Unrelated(store, genesis, ps)
  {
    hide Answered;
  }

  lemma RelatedAt(store: Store, genesis: Hash, ps: seq<Hash>, p: Hash)
    requires p in ps
    ensures Unrelated(store, genesis, ps) ==> forall q :: q in ps ==> ApartFrom(store, genesis, p, q)
  {
    hide Answered;
  }

  /** One block against all others. */
  method CheckAgainst(bc: BlockChain, ps: seq<Hash>, p: Hash, ghost dags0: map<Hash, BlockDag>) returns (r: Verdict)
    requires bc.GraphOk() && p in bc.hc.store && !Finalized(bc.hc.store[p]) && bc.hc.store[p].cp in bc.hc.store
    requires Extended(bc.hc.store, dags0, bc.dags) && forall q :: q in ps ==> q in bc.hc.store
    modifies bc`dags, bc.hc`ancestorCache
    ensures bc.GraphOk() && Extended(bc.hc.store, dags0, bc.dags)
    ensures Whole(bc.hc.store, bc.hc.genesis, dags0) ==>
      (r == Fine <==> forall q :: q in ps ==> ApartFrom(bc.hc.store, bc.hc.genesis, p, q)) && r != Incomplete
  {
    hide BlockChain.GraphOk, Extended, Whole, Answered;
    ghost var store, genesis := bc.hc.store, bc.hc.genesis;
    NotGenesis(bc, p);
    for k := 0 to |ps|
      invariant bc.GraphOk() && Extended(store, dags0, bc.dags)
      invariant Whole(store, genesis, dags0) ==> forall q :: q in ps[..k] ==> ApartFrom(store, genesis, p, q)
    {
      assert ps[k] in ps;
      if ps[k] == p {
        continue;
      }
      if Whole(store, genesis, dags0) {
        StillWhole(store, genesis, dags0, bc.dags);
      }
      ghost var before := bc.dags;
      var related := IsAncestorByTips(bc, p, ps[k]);
      ExtendedTrans(store, dags0, before, bc.dags);
      if related != Some(false) {
        return if related.Some? then Refused else Incomplete;
      }
    }
    assert ps[..|ps|] == ps;
    return Fine;
  }

  lemma NotGenesis(bc: BlockChain, p: Hash)
    requires bc.GraphOk() && p in bc.hc.store && !Finalized(bc.hc.store[p])
    ensures p != bc.hc.genesis
  {
  }

  lemma StillWhole(store: Store, genesis: Hash, dags: map<Hash, BlockDag>, dags': map<Hash, BlockDag>)
    requires Whole(store, genesis, dags) && Extended(store, dags, dags')
    ensures Whole(store, genesis, dags') && dags' == dags
  {
    NothingMade(store, dags, dags');
  }

  lemma ExtendedTrans(store: Store, a: map<Hash, BlockDag>, b: map<Hash, BlockDag>, c: map<Hash, BlockDag>)
    requires Extended(store, a, b) && Extended(store, b, c)
    ensures Extended(store, a, c)
  {
  }

  method VerifyBlockParents(bc: BlockChain, hd: Header) returns (r: Verdict)
    requires bc.GraphOk() && CpsStored(bc.hc.store, hd)
    modifies bc`dags, bc.hc`ancestorCache
    ensures bc.GraphOk() && Extended(bc.hc.store, old(bc.dags), bc.dags)
    ensures r == Fine ==> ParentsFine(bc.hc.store, hd)
    ensures Whole(bc.hc.store, bc.hc.genesis, old(bc.dags)) ==>
      (r == Fine <==> ParentsFine(bc.hc.store, hd) && (SameSlots(bc.hc.store, hd.parents) || Unrelated(bc.hc.store, bc.hc.genesis, hd.parents)))
    ensures Whole(bc.hc.store, bc.hc.genesis, old(bc.dags)) ==>
      (r == Fine && !OnOwnCp(bc.hc.store, bc.hc.genesis, hd.parents) <==> ParentsFine(bc.hc.store, hd) && Apart(bc.hc.store, hd.parents))
  {
    hide BlockChain.GraphOk, Extended, Whole, Unrelated, Apart, SameSlots, OnOwnCp;
    ExtendedRefl(bc.hc.store, bc.dags);
    var slotsEqual;
    r, slotsEqual := CheckParents(bc.hc.store, hd);
    if r != Fine {
      return;
    }
    if Whole(bc.hc.store, bc.hc.genesis, bc.dags) {
      UnrelatedIsApart(bc, hd.parents);
    }
    if !slotsEqual {
      r := CheckUnrelated(bc, hd.parents);
    }
  }

  /** Among the given blocks is the checkpoint of an unfinalised one, and it is neither genesis nor its parent. */
  ghost predicate OnOwnCp(store: Store, genesis: Hash, ps: seq<Hash>) {
    exists p, q :: p in ps && q in ps && p in store && !Finalized(store[p]) && q == store[p].cp && q != genesis && q !in store[p].parents
  }

  /** The answers tell whether one parent is an ancestor of another exactly when no parent is the checkpoint of another;
      parents of one slot need no answers. */
  lemma UnrelatedIsApart(bc: BlockChain, ps: seq<Hash>)
    requires bc.GraphOk() && Whole(bc.hc.store, bc.hc.genesis, bc.dags)
    ensures Apart(bc.hc.store, ps) <==> Unrelated(bc.hc.store, bc.hc.genesis, ps) && !OnOwnCp(bc.hc.store, bc.hc.genesis, ps)
    ensures SameSlots(bc.hc.store, ps) ==> Apart(bc.hc.store, ps)
  {
    hide Past, DagsOk, CorrectEntry, SlotsDescend, AllVerified;
    var store, genesis := bc.hc.store, bc.hc.genesis;
    if SameSlots(store, ps) {
      SameSlotsApart(store, genesis, ps);
    }
    forall p, q | p in ps && q in ps && p in store && !Finalized(store[p])
      ensures p == q ==> q !in Past(store, p)
      ensures q == store[p].cp ==> q in Past(store, p) {
      NotOwnPast(store, p);
      WholeVerified(store, genesis, bc.dags, p);
      assert Verified(store, p);
    }
  }

  /** Over one checkpoint the answers are right. */
  lemma OverIsOffCp(bc: BlockChain, hd: Header)
    requires bc.GraphOk() && Whole(bc.hc.store, bc.hc.genesis, bc.dags) && Over(bc.hc.store, hd)
    ensures !OnOwnCp(bc.hc.store, bc.hc.genesis, hd.parents)
  {
    hide Past, DagsOk, CorrectEntry, SlotsDescend, AllVerified;
  }

  // ---------- VerifyBlock ----------

  /** The block goes on its checkpoint, on unfinalised blocks over it, or on both. */
  predicate Upon(store: Store, hd: Header) {
    && hd.cp in store && Finalized(store[hd.cp]) && !Finalized(hd)
    && forall p :: p in hd.parents ==> p in store && (p == hd.cp || (store[p].cp == hd.cp && !Finalized(store[p])))
  }

  /** What is asked of a block: its parents fine and not answered to be related, its height the checkpoint's plus the
      blocks after it plus one. */
  ghost predicate Passes(store: Store, genesis: Hash, hd: Header)
    requires hd.cp in store
  {
    && ParentsFine(store, hd) && (SameSlots(store, hd.parents) || Unrelated(store, genesis, hd.parents))
    && hd.height == store[hd.cp].height + |SearchSet(store, hd.cp, hd.parents)| + 1
  }

  /** What a block must be: its parents fine and apart, its height the checkpoint's plus the blocks after it plus one. */
  ghost predicate RightBlock(store: Store, hd: Header)
    requires hd.cp in store
  {
    && ParentsFine(store, hd) && Apart(store, hd.parents)
    && hd.height == store[hd.cp].height + |SearchSet(store, hd.cp, hd.parents)| + 1
  }

  /** The graph part of verifyCheckpoint: the checkpoint is finalised, and no parent is counted from a later one or misses it. */
  predicate FollowsCp(store: Store, dags: map<Hash, BlockDag>, hd: Header)
    requires hd.cp in store
  {
    && Finalized(store[hd.cp])
    && forall p :: p in hd.parents && p in dags ==>
         dags[p].cp == hd.cp ||
         (&& (dags[p].cp in store ==> store[dags[p].cp].height < store[hd.cp].height)
          && ((hd.cp in hd.parents && p in store && store[p].slot == store[hd.cp].slot) || hd.cp in dags[p].ancestors))
  }

  /** The ancestors after the checkpoint that verification counts. */
  method CountAncestors(bc: BlockChain, hd: Header) returns (isCp: bool, ancestors: set<Hash>, unloaded: seq<Hash>)
    requires bc.GraphOk() && CpsStored(bc.hc.store, hd)
    modifies bc`dags, bc.hc`ancestorCache
    ensures bc.GraphOk() && Extended(bc.hc.store, old(bc.dags), bc.dags)
    ensures |unloaded| == 0 ==> forall p :: p in hd.parents ==> p in bc.dags
    ensures Whole(bc.hc.store, bc.hc.genesis, old(bc.dags)) && Upon(bc.hc.store, hd) && Checkpoint(bc.hc.store, hd.cp) ==>
      && |unloaded| == 0 && ancestors == SearchSet(bc.hc.store, hd.cp, hd.parents)
      && (isCp || hd.cp in hd.parents || hd.parents == [])
  {
    hide Extended, Whole, Rooted, DagsOk, Gathered, Olds, SearchSet, Elements, CorrectEntry, FinalizedBelow, LeadsTo, Upon, Checkpoint;
    ghost var store, genesis, dags0 := bc.hc.store, bc.hc.genesis, bc.dags;
    ghost var plain := Whole(store, genesis, dags0) && Upon(store, hd) && Checkpoint(store, hd.cp);
    ExtendedRefl(store, dags0);
    var commonCp, known := hd.cp, {};
    if hd.cp in hd.parents {
      commonCp := CommonCp(bc.hc.store, hd.cp);
      var isCp0, unloaded0;
      isCp0, known, unloaded0 := CollectByTips(bc, bc.hc.store[hd.cp].parents, commonCp);
    }
    ghost var dags1 := bc.dags;
    isCp, ancestors, unloaded := CollectByTips(bc, hd.parents, commonCp);
    ExtendedTrans(store, dags0, dags1, bc.dags);
    ExtendedKeys(store, dags1, bc.dags);
    SomeUnloaded(unloaded, hd.parents, dags1);
    ancestors := ancestors - known;
    if commonCp != hd.cp {
      ancestors := ancestors - {hd.cp};
    }
    if plain {
      StillWhole(store, genesis, dags0, dags1);
      StillWhole(store, genesis, dags0, bc.dags);
      if hd.cp in hd.parents {
        OnCp(store, genesis, dags0, hd, commonCp);
      } else {
        UponIsOver(store, hd);
        OverIsOneCp(store, genesis, dags0, hd);
        WholeCount(store, genesis, dags0, hd);
      }
    }
  }

  lemma OverIsOneCp(store: Store, genesis: Hash, dags: map<Hash, BlockDag>, hd: Header)
    requires Rooted(store, genesis) && DagsOk(store, dags) && Whole(store, genesis, dags) && Over(store, hd)
    ensures OneCp(store, genesis, hd) && CpsStored(store, hd)
    ensures hd.parents != [] && hd.cp !in hd.parents ==> LeadsTo(dags, hd.parents, hd.cp)
  {
    hide SearchSet, Past, AllVerified, OneCp;
    if hd.parents != [] && hd.cp !in hd.parents {
      var p := hd.parents[0];
      assert p in hd.parents;
      assert DagOk(store, p, dags[p]);
      OnlyGenesisIsLowest(store, genesis, p);
    }
    if hd.cp != genesis {
      LowerCp(store, genesis, hd.cp);
    }
    ParentsOneCp(store, genesis, hd);
  }

  lemma ParentsOneCp(store: Store, genesis: Hash, hd: Header)
    requires Rooted(store, genesis) && Over(store, hd)
    ensures OneCp(store, genesis, hd)
  {
  }

  lemma UponIsOver(store: Store, hd: Header)
    ensures Over(store, hd) ==> Upon(store, hd)
    ensures Upon(store, hd) && hd.cp !in hd.parents ==> Over(store, hd)
  {
  }

  /** On the checkpoint, what is counted from the checkpoint before it is what comes after it. */
  lemma OnCp(store: Store, genesis: Hash, dags: map<Hash, BlockDag>, hd: Header, commonCp: Hash)
    requires Rooted(store, genesis) && DagsOk(store, dags) && Whole(store, genesis, dags) && Upon(store, hd)
    requires Checkpoint(store, hd.cp) && hd.cp in hd.parents && commonCp == CommonCp(store, hd.cp) && commonCp in store
    ensures commonCp in dags && Elements(hd.parents) - dags.Keys == {}
    ensures var known := Gathered(dags, store[hd.cp].parents) - {commonCp} - Olds(store, dags[commonCp]);
      Gathered(dags, hd.parents) - {commonCp} - Olds(store, dags[commonCp]) - known - {hd.cp} == SearchSet(store, hd.cp, hd.parents)
  {
    hide SearchSet, Olds, Gathered, AllVerified, Checkpoint, Past;
    var known := Gathered(dags, store[hd.cp].parents) - {commonCp} - Olds(store, dags[commonCp]);
    KnownIsList(store, genesis, dags, hd.cp, commonCp);
    forall x ensures
      x in Gathered(dags, hd.parents) - {commonCp} - Olds(store, dags[commonCp]) - known - {hd.cp} <==> x in SearchSet(store, hd.cp, hd.parents) {
      OnCpAt(store, genesis, dags, hd, {commonCp} + Olds(store, dags[commonCp]) + known + {hd.cp}, x);
    }
  }

  lemma OnCpAt(store: Store, genesis: Hash, dags: map<Hash, BlockDag>, hd: Header, gone: set<Hash>, x: Hash)
    requires Rooted(store, genesis) && DagsOk(store, dags) && Whole(store, genesis, dags) && Upon(store, hd) && Checkpoint(store, hd.cp)
    requires Elements(dags[hd.cp].ancestors) + {hd.cp} <= gone && forall g :: g in gone ==> g == hd.cp || g in Past(store, hd.cp)
    ensures x in Gathered(dags, hd.parents) - gone <==> x in SearchSet(store, hd.cp, hd.parents)
  {
    hide SearchSet, Gathered, Rooted, DagsOk, AllVerified, SlotsDescend, AllOneCp, Checkpoint, Past;
    UponSearch(store, genesis, dags, hd, x);
    GatheredFrom(dags, hd.parents, x);
    if x in SearchSet(store, hd.cp, hd.parents) {
      SearchAvoidsPast(store, hd.cp, hd.parents, x);
    }
  }

  /** What the lists of the checkpoint's parents amount to is the checkpoint's own list; all that is left out is in its past. */
  lemma KnownIsList(store: Store, genesis: Hash, dags: map<Hash, BlockDag>, cp: Hash, commonCp: Hash)
    requires Rooted(store, genesis) && DagsOk(store, dags) && Whole(store, genesis, dags)
    requires Checkpoint(store, cp) && commonCp == CommonCp(store, cp) && commonCp in store
    ensures Gathered(dags, store[cp].parents) - {commonCp} - Olds(store, dags[commonCp]) == Elements(dags[cp].ancestors)
    ensures forall x :: x == commonCp || x in Olds(store, dags[commonCp]) || x in dags[cp].ancestors ==> x == cp || x in Past(store, cp)
  {
    hide SearchSet, Gathered, AllVerified, Checkpoint, Past;
    NeedsFinalized(store, cp);
    assert DagOk(store, cp, dags[cp]) && DagOk(store, commonCp, dags[commonCp]);
    if cp == genesis {
      EmptyList(store, dags[cp]);
      assert Gathered(dags, []) == {} by { NothingGathered(dags); }
    } else {
      OnlyGenesisIsLowest(store, genesis, cp);
      WholeVerified(store, genesis, dags, cp);
      WholeCount(store, genesis, dags, store[cp]);
      assert commonCp in Past(store, cp) by { OneVerified(store, genesis, cp); }
    }
    forall x | x in dags[commonCp].ancestors ensures x == cp || x in Past(store, cp) {
      ListIsPast(store, genesis, commonCp, dags[commonCp], x);
      if cp != genesis {
        PastOfPastStored(store, cp, commonCp, x);
      }
    }
    forall x | x in dags[cp].ancestors ensures x in Past(store, cp) {
      ListIsPast(store, genesis, cp, dags[cp], x);
    }
  }

  lemma NothingGathered(dags: map<Hash, BlockDag>)
    ensures Gathered(dags, []) == {}
  {
  }

  /** The search from the parents of such a block finds the parents but for the checkpoint, and their lists. */
  lemma UponSearch(store: Store, genesis: Hash, dags: map<Hash, BlockDag>, hd: Header, x: Hash)
    requires Rooted(store, genesis) && DagsOk(store, dags) && Whole(store, genesis, dags) && Upon(store, hd) && Checkpoint(store, hd.cp)
    ensures x in SearchSet(store, hd.cp, hd.parents) <==>
      exists p :: p in hd.parents && p != hd.cp && x in Elements(dags[p].ancestors) + {p}
  {
    hide Reach, Expanding, AllVerified, Checkpoint;
    var cp, inner := hd.cp, Expanding(store, hd.cp);
    assert cp !in inner by { NotBehindCp(store, cp); }
    forall p | p in hd.parents ensures
      x in inner && Reach(store, inner, p, x) <==> p != cp && x in Elements(dags[p].ancestors) + {p} {
      ReachUnfold(store, inner, p, x);
      if p != cp {
        assert p in dags && DagOk(store, p, dags[p]);
        assert p != genesis;
        WholeVerified(store, genesis, dags, p);
        assert Verified(store, p) by { OneVerified(store, genesis, p); }
        OverCpExpands(store, genesis, cp, p);
        OnlyGenesisIsLowest(store, genesis, p);
        assert x in Elements(dags[p].ancestors) <==> x in SearchSet(store, cp, store[p].parents);
      }
    }
  }

  lemma OneVerified(store: Store, genesis: Hash, p: Hash)
    requires AllVerified(store, genesis) && p in store && p != genesis
    ensures Verified(store, p)
  {
  }

  lemma NotBehindCp(store: Store, cp: Hash)
    requires cp in store
    ensures cp !in Expanding(store, cp)
  {
  }

  lemma EmptyList(store: Store, d: BlockDag)
    requires DagOk(store, d.hash, d) && store[d.hash].parents == []
    ensures Elements(d.ancestors) == {}
  {
    if d.cp in store {
      NothingToSearch(store, d.cp);
    }
  }

  lemma LowerCp(store: Store, genesis: Hash, h: Hash)
    requires Rooted(store, genesis) && AllVerified(store, genesis) && h in store && h != genesis
    ensures store[h].cp in store && store[h].cp != h && store[store[h].cp].height < store[h].height
  {
    hide Reach;
    assert Verified(store, h);
    ReachDescends(store, store.Keys, h, store[h].cp);
  }

  /** The checks of VerifyBlock from the checkpoint on; `invalid` are the blocks known to be bad. */
  method VerifyBlock(bc: BlockChain, hd: Header, invalid: set<Hash>) returns (r: Verdict)
    requires bc.GraphOk() && CpsStored(bc.hc.store, hd)
    modifies bc`dags, bc.hc`ancestorCache
    ensures bc.GraphOk() && Extended(bc.hc.store, old(bc.dags), bc.dags)
    ensures r == Fine ==> ParentsFine(bc.hc.store, hd) && Finalized(bc.hc.store[hd.cp]) && forall p :: p in hd.parents ==> p in bc.dags
    ensures Whole(bc.hc.store, bc.hc.genesis, old(bc.dags)) && Upon(bc.hc.store, hd) && Checkpoint(bc.hc.store, hd.cp) ==>
      && (r == Fine <==> Passes(bc.hc.store, bc.hc.genesis, hd))
      && (r == Fine && !OnOwnCp(bc.hc.store, bc.hc.genesis, hd.parents) <==> RightBlock(bc.hc.store, hd))
  {
    hide BlockChain.GraphOk, Extended, Whole, Upon, Checkpoint, SearchSet, Apart, ParentsFine, OnOwnCp, Unrelated, SameSlots;
    ghost var store, genesis, dags0 := bc.hc.store, bc.hc.genesis, bc.dags;
    var isCp, ancestors, unloaded := CountAncestors(bc, hd);
    ghost var dags1 := bc.dags;
    if Whole(store, genesis, dags0) && Upon(store, hd) {
      StillWhole(store, genesis, dags0, dags1);
      WholeFollows(bc, hd);
      NoParents(store, hd);
    }
    if |unloaded| > 0 {
      return if exists u :: u in unloaded && u in invalid then Refused else Incomplete;
    }
    if !isCp && hd.cp !in hd.parents {
      return Refused;
    }
    if !FollowsCp(bc.hc.store, bc.dags, hd) {
      return Refused;
    }
    if hd.height != bc.hc.store[hd.cp].height + |ancestors| + 1 {
      return Refused;
    }
    r := VerifyBlockParents(bc, hd);
    ExtendedTrans(store, dags0, dags1, bc.dags);
    ExtendedKeys(store, dags1, bc.dags);
  }

  lemma NoParents(store: Store, hd: Header)
    ensures ParentsFine(store, hd) ==> hd.parents != []
  {
  }

  lemma WholeFollows(bc: BlockChain, hd: Header)
    requires bc.GraphOk() && Whole(bc.hc.store, bc.hc.genesis, bc.dags) && Upon(bc.hc.store, hd)
    ensures FollowsCp(bc.hc.store, bc.dags, hd)
  {
    hide SearchSet, CorrectEntry, AllVerified;
    var store, genesis, dags := bc.hc.store, bc.hc.genesis, bc.dags;
    forall p | p in hd.parents && p in dags ensures
      dags[p].cp == hd.cp || (p == hd.cp && (dags[p].cp in store ==> store[dags[p].cp].height < store[hd.cp].height)) {
      assert DagOk(store, p, dags[p]);
      if p != genesis {
        OnlyGenesisIsLowest(store, genesis, p);
        LowerCp(store, genesis, p);
      }
    }
  }

  // ---------- insertBlocks ----------

  type Block = (Hash, Header)

  /** A new block over its checkpoint that is as a block must be. */
  ghost predicate Insertable(store: Store, b: Hash, hd: Header) {
    b !in store && Over(store, hd) && RightBlock(store, hd)
  }

  /** The finalised blocks named as checkpoints are checkpoints. */
  ghost predicate NamedCps(store: Store, blocks: seq<Block>) {
    forall i :: 0 <= i < |blocks| && blocks[i].1.cp in store && Finalized(store[blocks[i].1.cp]) ==> Checkpoint(store, blocks[i].1.cp)
  }

  /** The stores a run went through: each accepted block was new and is stored next. */
  ghost predicate Trail(blocks: seq<Block>, accepted: seq<bool>, stores: seq<Store>) {
    && |accepted| <= |blocks| && |stores| == |accepted| + 1
    && forall i :: 0 <= i < |accepted| ==> TrailStep(stores[i], blocks[i], accepted[i], stores[i + 1])
  }

  ghost predicate TrailStep(store: Store, block: Block, accepted: bool, next: Store) {
    var (b, hd) := block;
    if accepted then b !in store && ParentsFine(store, hd) && Over(store, hd) && next == store[b := hd] else next == store
  }

  /** Exactly the insertable blocks were accepted. */
  ghost predicate Exactly(blocks: seq<Block>, accepted: seq<bool>, stores: seq<Store>)
    requires |accepted| <= |blocks| && |stores| == |accepted| + 1
  {
    forall i :: 0 <= i < |accepted| ==> (accepted[i] <==> Insertable(stores[i], blocks[i].0, blocks[i].1))
  }

  ghost function Taken(blocks: seq<Block>, accepted: seq<bool>): set<Hash>
    requires |accepted| <= |blocks|
  {
    set i | 0 <= i < |accepted| && accepted[i] :: blocks[i].0
  }

  /** Inserts blocks in turn. A run stops at a block that cannot be judged, at a bad one if `strict`, and at one outside
      this model; otherwise bad blocks are passed over. In a whole DAG the blocks accepted are exactly the right ones,
      and afterwards every height is the number of ancestors. */
  method InsertBlocks(bc: BlockChain, blocks: seq<Block>, strict: bool, invalid: set<Hash>)
    returns (accepted: seq<bool>, ghost stores: seq<Store>)
    requires bc.Valid()
    modifies bc, bc.hc
    ensures bc.Valid() && Trail(blocks, accepted, stores) && stores[0] == old(bc.hc.store)
    ensures bc.inserted == old(bc.inserted) + Taken(blocks, accepted)
    ensures bc.hc.store == stores[|accepted|]
            || (|accepted| < |blocks| && bc.hc.store == stores[|accepted|][blocks[|accepted|].0 := blocks[|accepted|].1])
    ensures Antichain(bc.hc.store, bc.tips.Keys) && forall x :: x in bc.inserted ==> Covered(bc.hc.store, bc.tips.Keys, x)
    ensures old(Whole(bc.hc.store, bc.hc.genesis, bc.dags) && NamedCps(bc.hc.store, blocks)) ==>
      && Exactly(blocks, accepted, stores) && bc.hc.store == stores[|accepted|]
      && (|accepted| < |blocks| ==> !Insertable(bc.hc.store, blocks[|accepted|].0, blocks[|accepted|].1))
      && Whole(bc.hc.store, bc.hc.genesis, bc.dags) && HeightsCount(bc.hc.store)
  {
    hide BlockChain.GraphOk, Antichain, Covered, Trail, Exactly, Taken, Whole, NamedCps, Insertable, HeightsCount, Over;
    accepted, stores := [], [bc.hc.store];
    ghost var whole := Whole(bc.hc.store, bc.hc.genesis, bc.dags) && NamedCps(bc.hc.store, blocks);
    TrailStart(blocks, bc.hc.store);
    while |accepted| < |blocks|
      invariant |accepted| <= |blocks| && |stores| == |accepted| + 1
      invariant bc.Valid() && Trail(blocks, accepted, stores) && stores[0] == old(bc.hc.store) && bc.hc.store == stores[|accepted|]
      invariant bc.inserted == old(bc.inserted) + Taken(blocks, accepted)
      invariant whole ==> Exactly(blocks, accepted, stores) && Whole(bc.hc.store, bc.hc.genesis, bc.dags) && NamedCps(bc.hc.store, blocks)
      decreases |blocks| - |accepted|
    {
      var (b, hd) := blocks[|accepted|];
      assert blocks[|accepted|] in blocks;
      var step := InsertOne(bc, b, hd, strict, invalid, blocks, whole);
      if step == Stopped {
        if whole {
          WholeCounts(bc);
        }
        return;
      }
      TrailMore(blocks, accepted, stores, step == Accepted, bc.hc.store);
      accepted := accepted + [step == Accepted];
      stores := stores + [bc.hc.store];
    }
    if whole {
      WholeCounts(bc);
    }
  }

  datatype Step = Accepted | Passed | Stopped

  /** One round of insertBlocks. */
  method InsertOne(bc: BlockChain, b: Hash, hd: Header, strict: bool, invalid: set<Hash>, ghost blocks: seq<Block>, ghost whole: bool)
    returns (step: Step)
    requires bc.Valid()
    requires whole ==> Whole(bc.hc.store, bc.hc.genesis, bc.dags) && NamedCps(bc.hc.store, blocks) && (b, hd) in blocks
    modifies bc, bc.hc
    ensures bc.Valid()
    ensures step == Accepted ==>
      && b !in old(bc.hc.store) && ParentsFine(old(bc.hc.store), hd) && Over(old(bc.hc.store), hd)
      && bc.hc.store == old(bc.hc.store)[b := hd] && bc.inserted == old(bc.inserted) + {b}
    ensures step != Accepted ==> bc.inserted == old(bc.inserted)
    ensures step == Passed ==> bc.hc.store == old(bc.hc.store)
    ensures step == Stopped ==> bc.hc.store == old(bc.hc.store) || bc.hc.store == old(bc.hc.store)[b := hd]
    ensures whole ==>
      && Whole(bc.hc.store, bc.hc.genesis, bc.dags) && NamedCps(bc.hc.store, blocks)
      && (step == Accepted <==> Insertable(old(bc.hc.store), b, hd)) && (step == Stopped ==> bc.hc.store == old(bc.hc.store))
  {
    hide BlockChain.GraphOk, Antichain, Covered, Whole, NamedCps, Over, Extended, RightBlock, SearchSet, ParentsFine, CpsStored, Checkpoint, ListReady, TipsAfter, NoDup,
      Upon, OnOwnCp, Passes;
    if b in bc.hc.store {
      return Passed;
    }
    if hd.cp !in bc.hc.store {
      OverNeedsCp(bc.hc.store, hd);
      return Passed;
    }
    ghost var store, genesis, dags0 := bc.hc.store, bc.hc.genesis, bc.dags;
    if whole && Over(store, hd) {
      UponIsOver(store, hd);
      OverIsOffCp(bc, hd);
      OverStored(bc, hd);
      NamedHere(store, blocks, b, hd);
    }
    if !CpsStored(bc.hc.store, hd) {
      return Stopped;
    }
    var verdict := VerifyBlock(bc, hd, invalid);
    ExtendedKeys(store, dags0, bc.dags);
    if whole {
      StillWhole(store, genesis, dags0, bc.dags);
      WholeKeys(store, genesis, dags0);
    }
    if verdict == Incomplete || (verdict == Refused && strict) {
      return Stopped;
    }
    if verdict == Refused {
      return Passed;
    }
    if !Over(bc.hc.store, hd) {
      return Stopped;
    }
    if whole {
      WholeLists(bc, b, hd);
      WholeNext(bc, b, hd, blocks);
    }
    var ok := bc.InsertBlock(b, hd);
    if whole {
      WholeAfter(bc, store, dags0, b, hd);
    }
    return if ok then Accepted else Stopped;
  }

  lemma OverNeedsCp(store: Store, hd: Header)
    ensures Over(store, hd) ==> hd.cp in store
  {
  }

  lemma OverStored(bc: BlockChain, hd: Header)
    requires bc.GraphOk() && Whole(bc.hc.store, bc.hc.genesis, bc.dags) && Over(bc.hc.store, hd)
    ensures CpsStored(bc.hc.store, hd)
  {
    hide Whole, Rooted, Over, CpsStored, DagsOk;
    OverIsOneCp(bc.hc.store, bc.hc.genesis, bc.dags, hd);
  }

  lemma NamedHere(store: Store, blocks: seq<Block>, b: Hash, hd: Header)
    requires NamedCps(store, blocks) && (b, hd) in blocks && Over(store, hd)
    ensures Checkpoint(store, hd.cp)
  {
    hide Checkpoint;
  }

  /** In a whole DAG no list is missing for a new block. */
  lemma WholeLists(bc: BlockChain, b: Hash, hd: Header)
    requires bc.GraphOk() && Whole(bc.hc.store, bc.hc.genesis, bc.dags) && Over(bc.hc.store, hd) && b !in bc.hc.store
    ensures ListReady(bc.hc.store[b := hd], bc.dags, hd)
  {
    hide SearchSet, AllVerified, CorrectEntry;
    var store, genesis, dags := bc.hc.store, bc.hc.genesis, bc.dags;
    if hd.cp != genesis {
      assert DagOk(store, hd.cp, dags[hd.cp]);
      OnlyGenesisIsLowest(store, genesis, hd.cp);
      LowerCp(store, genesis, hd.cp);
    }
  }

  lemma NamedKept(store: Store, genesis: Hash, b: Hash, hd: Header, blocks: seq<Block>)
    requires Rooted(store, genesis) && b !in store && !Finalized(hd) && NamedCps(store, blocks)
    ensures NamedCps(store[b := hd], blocks)
  {
    hide Checkpoint, Rooted;
    forall i | 0 <= i < |blocks| && blocks[i].1.cp in store[b := hd] && Finalized(store[b := hd][blocks[i].1.cp])
      ensures Checkpoint(store[b := hd], blocks[i].1.cp) {
      CheckpointKept(store, genesis, b, hd, blocks[i].1.cp);
    }
  }

  /** A right block keeps the DAG whole. */
  lemma WholeKept(store: Store, genesis: Hash, dags: map<Hash, BlockDag>, b: Hash, hd: Header, dags': map<Hash, BlockDag>)
    requires Rooted(store, genesis) && Whole(store, genesis, dags) && Insertable(store, b, hd) && Checkpoint(store, hd.cp)
    requires dags'.Keys == store.Keys + {b}
    ensures Whole(store[b := hd], genesis, dags')
  {
    hide SearchSet, Past, Apart, Checkpoint, AllVerified, HeightsCount, AllOneCp, OneCp, SlotsDescend, Rooted, AllAncestors;
    OverFacts(store, b, hd);
    CpIsAncestor(store, genesis, hd);
    HeightsKept(store, genesis, b, hd);
    ParentsOneCp(store, genesis, hd);
    OneCpKept(store, genesis, b, hd);
    SlotsKept(store, genesis, b, hd);
  }

  lemma OneCpKept(store: Store, genesis: Hash, b: Hash, hd: Header)
    requires b !in store && OneCp(store, genesis, hd) && AllOneCp(store, genesis)
    ensures AllOneCp(store[b := hd], genesis)
  {
    var store' := store[b := hd];
    forall h | h in store' && h != genesis ensures OneCp(store', genesis, store'[h]) {
      assert h != b ==> OneCp(store, genesis, store[h]);
    }
  }

  lemma SlotsKept(store: Store, genesis: Hash, b: Hash, hd: Header)
    requires Rooted(store, genesis) && SlotsDescend(store) && b !in store && ParentsFine(store, hd)
    ensures SlotsDescend(store[b := hd])
  {
  }

  lemma CpIsAncestor(store: Store, genesis: Hash, hd: Header)
    requires Rooted(store, genesis) && AllVerified(store, genesis) && Over(store, hd) && ParentsFine(store, hd)
    ensures hd.cp in AllAncestors(store, hd.parents)
  {
    hide Reach;
    var p := hd.parents[0];
    assert p in hd.parents;
    if p == hd.cp {
      ReachSelf(store, store.Keys, p);
    } else {
      assert p != genesis;
      assert Verified(store, p);
    }
  }

  lemma WholeNext(bc: BlockChain, b: Hash, hd: Header, blocks: seq<Block>)
    requires bc.GraphOk() && Whole(bc.hc.store, bc.hc.genesis, bc.dags) && NamedCps(bc.hc.store, blocks)
    requires Insertable(bc.hc.store, b, hd) && Checkpoint(bc.hc.store, hd.cp)
    ensures Whole(bc.hc.store[b := hd], bc.hc.genesis, bc.dags[b := BlockDag(b, hd.cp, [])]) && NamedCps(bc.hc.store[b := hd], blocks)
  {
    hide Rooted, NamedCps, Checkpoint, RightBlock, DagsOk, CorrectEntry, AllVerified, OneCp;
    var dags' := bc.dags[b := BlockDag(b, hd.cp, [])];
    NamedKept(bc.hc.store, bc.hc.genesis, b, hd, blocks);
    WholeKept(bc.hc.store, bc.hc.genesis, bc.dags, b, hd, dags');
  }

  lemma WholeAfter(bc: BlockChain, store: Store, dags: map<Hash, BlockDag>, b: Hash, hd: Header)
    requires bc.GraphOk() && bc.hc.store == store[b := hd] && dags.Keys <= bc.dags.Keys && b in bc.dags && dags.Keys == store.Keys
    requires Whole(store[b := hd], bc.hc.genesis, dags[b := BlockDag(b, hd.cp, [])])
    ensures Whole(bc.hc.store, bc.hc.genesis, bc.dags)
  {
    hide SearchSet, AllVerified, OneCp;
    forall h | h in bc.dags ensures h in bc.hc.store {
      assert DagOk(bc.hc.store, h, bc.dags[h]);
    }
  }

  lemma WholeCounts(bc: BlockChain)
    requires bc.GraphOk() && Whole(bc.hc.store, bc.hc.genesis, bc.dags)
    ensures HeightsCount(bc.hc.store)
  {
    hide Rooted, AllVerified, HeightsCount;
    HeightsAreCounts(bc.hc.store, bc.hc.genesis);
  }

  lemma WholeKeys(store: Store, genesis: Hash, dags: map<Hash, BlockDag>)
    requires Whole(store, genesis, dags)
    ensures dags.Keys == store.Keys
  {
  }

  lemma TrailStart(blocks: seq<Block>, store: Store)
    ensures Trail(blocks, [], [store]) && Exactly(blocks, [], [store]) && Taken(blocks, []) == {}
  {
  }

  lemma TrailMore(blocks: seq<Block>, accepted: seq<bool>, stores: seq<Store>, taken: bool, next: Store)
    requires Trail(blocks, accepted, stores) && |accepted| < |blocks| && TrailStep(stores[|accepted|], blocks[|accepted|], taken, next)
    ensures Trail(blocks, accepted + [taken], stores + [next])
    ensures Taken(blocks, accepted + [taken]) == Taken(blocks, accepted) + (if taken then {blocks[|accepted|].0} else {})
    ensures Exactly(blocks, accepted, stores) && (taken <==> Insertable(stores[|accepted|], blocks[|accepted|].0, blocks[|accepted|].1)) ==>
      Exactly(blocks, accepted + [taken], stores + [next])
  {
    hide TrailStep, Insertable;
    var more, after := accepted + [taken], stores + [next];
    forall i | 0 <= i < |more| ensures TrailStep(after[i], blocks[i], more[i], after[i + 1]) {
      assert i < |accepted| ==> more[i] == accepted[i] && after[i] == stores[i] && after[i + 1] == stores[i + 1];
    }
    TakenMore(blocks, accepted, taken);
    forall i | 0 <= i < |accepted| ensures more[i] == accepted[i] && after[i] == stores[i] {
    }
  }

  lemma TakenMore(blocks: seq<Block>, accepted: seq<bool>, taken: bool)
    requires |accepted| < |blocks|
    ensures Taken(blocks, accepted + [taken]) == Taken(blocks, accepted) + (if taken then {blocks[|accepted|].0} else {})
  {
    var more := accepted + [taken];
    forall h | h in Taken(blocks, more) ensures h in Taken(blocks, accepted) || (taken && h == blocks[|accepted|].0) {
      var i :| 0 <= i < |more| && more[i] && blocks[i].0 == h;
      if i < |accepted| {
        assert accepted[i];
      }
    }
    forall h | h in Taken(blocks, accepted) ensures h in Taken(blocks, more) {
      var i :| 0 <= i < |accepted| && accepted[i] && blocks[i].0 == h;
      assert more[i];
    }
    if taken {
      assert more[|accepted|];
    }
  }

  // ---------- From genesis ----------

  lemma GenesisIsWhole(genesis: Hash, header: Header, dags: map<Hash, BlockDag>, blocks: seq<Block>)
    requires header.parents == [] && header.height == 0 && header.nr == 0 && dags.Keys == {genesis}
    ensures Whole(map[genesis := header], genesis, dags) && NamedCps(map[genesis := header], blocks)
  {
    var store := map[genesis := header];
    assert Rooted(store, genesis);
    GenesisHasNoPast(store, genesis);
  }

  /** A chain grown from genesis holds exactly the insertable blocks, and every height is the number of ancestors. */
  method GrowFromGenesis(genesis: Hash, header: Header, blocks: seq<Block>, strict: bool)
    returns (bc: BlockChain, accepted: seq<bool>, ghost stores: seq<Store>)
    requires header.parents == [] && header.height == 0 && header.nr == 0
    ensures bc.Valid() && Trail(blocks, accepted, stores) && stores[0] == map[genesis := header] && Exactly(blocks, accepted, stores)
    ensures bc.hc.store == stores[|accepted|] && bc.inserted == Taken(blocks, accepted) && HeightsCount(bc.hc.store)
    ensures |accepted| < |blocks| ==> !Insertable(bc.hc.store, blocks[|accepted|].0, blocks[|accepted|].1)
  {
    hide BlockChain.Valid, Whole, NamedCps, Trail, Exactly, Taken, Insertable, HeightsCount;
    bc := new BlockChain(genesis, header);
    GenesisIsWhole(genesis, header, bc.dags, blocks);
    accepted, stores := InsertBlocks(bc, blocks, strict, {});
    LengthsOf(blocks, accepted, stores);
  }

  lemma LengthsOf(blocks: seq<Block>, accepted: seq<bool>, stores: seq<Store>)
    requires Trail(blocks, accepted, stores)
    ensures |accepted| <= |blocks| && |stores| == |accepted| + 1
  {
  }
}
