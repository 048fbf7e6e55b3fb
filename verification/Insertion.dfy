/** What a new block leaves unchanged in the DAG, and the checks on its parents (core/blockchain.go). */
module Insertion {
  import opened Transactions
  import opened Dag
  import opened HeaderChains
  import opened Heights

  // ---------- A growing store ----------

  /** Where a new block is not reached, it changes nothing. */
  lemma {:induction false} ReachStable(store: Store, b: Hash, hd: Header, inner: set<Hash>, inner': set<Hash>, a: Hash, x: Hash)
    requires Ranked(store) && b !in store && !Reach(store, inner, a, b)
    requires forall y :: y in store ==> (y in inner' <==> y in inner)
    ensures Reach(store[b := hd], inner', a, x) <==> Reach(store, inner, a, x)
    decreases Depth(store, a)
  {
    hide Reach;
    var store' := store[b := hd];
    ReachUnfold(store, inner, a, x);
    ReachUnfold(store', inner', a, x);
    ReachSelf(store, inner, a);
    if a in store && a in inner {
      forall p | p in store[a].parents ensures Reach(store', inner', p, x) <==> Reach(store, inner, p, x) {
        if Reach(store, inner, p, b) {
          ReachByParent(store, inner, a, p, b);
        }
        ReachStable(store, b, hd, inner, inner', p, x);
      }
    }
  }

  lemma ExpandingGrows(store: Store, b: Hash, hd: Header, cp: Hash)
    requires b !in store && cp in store
    ensures forall y :: y in store ==> (y in Expanding(store[b := hd], cp) <==> y in Expanding(store, cp))
  {
  }

  lemma {:induction false} ErrorStable(store: Store, b: Hash, hd: Header, genesis: Hash, cp: Hash, h: Hash)
    requires Ranked(store) && Ranked(store[b := hd]) && b !in store && cp in store
    requires !Reach(store, Expanding(store, cp), h, b)
    ensures ErrorOf(store[b := hd], genesis, cp, h) == ErrorOf(store, genesis, cp, h)
    decreases Depth(store, h)
  {
    hide Reach;
    var inner := Expanding(store, cp);
    ReachSelf(store, inner, h);
    if h in inner {
      var ps := store[h].parents;
      var p := ps[|ps| - 1];
      assert p in ps;
      if Reach(store, inner, p, b) {
        ReachByParent(store, inner, h, p, b);
      }
      ErrorStable(store, b, hd, genesis, cp, p);
    }
  }

  /** Answers survive the insertion of `b` exactly when they do not report it missing. */
  lemma EntrySurvives(store: Store, genesis: Hash, h: Hash, e: Collected, b: Hash, hd: Header)
    requires CorrectEntry(store, genesis, h, e) && b !in store && Ranked(store[b := hd])
    ensures CorrectEntry(store[b := hd], genesis, h, e) <==> b !in e.unloaded
  {
    hide Reach, ReachAny, Expanding, ErrorOf;
    var store' := store[b := hd];
    var inner, inner' := Expanding(store, e.cp), Expanding(store', e.cp);
    if b !in e.unloaded {
      assert !Reach(store, inner, h, b) by { ReachOne(store, inner, h, b); }
      ErrorStable(store, b, hd, genesis, e.cp, h);
      ExpandingGrows(store, b, hd, e.cp);
      forall x ensures ReachAny(store', inner', [h], x) <==> ReachAny(store, inner, [h], x) {
        ReachOne(store, inner, h, x);
        ReachOne(store', inner', h, x);
        ReachStable(store, b, hd, inner, inner', h, x);
      }
      ReachOne(store, inner, h, b);
      OnlyStored(store, e.cp);
      OnlyStored(store', e.cp);
      SameAnswers(store, store', inner, inner', h, e, b);
    }
  }

  lemma SameAnswers(store: Store, store': Store, inner: set<Hash>, inner': set<Hash>, h: Hash, e: Collected, b: Hash)
    requires forall x :: ReachAny(store', inner', [h], x) <==> ReachAny(store, inner, [h], x)
    requires !ReachAny(store, inner, [h], b) && b !in store && b in store'
    requires forall y :: y in store ==> (y in inner' <==> y in inner)
    requires store' == store[b := store'[b]] && inner <= store.Keys && inner' <= store'.Keys
    ensures AncestorsExact(store, inner, [h], e.ancestors) ==> AncestorsExact(store', inner', [h], e.ancestors)
    ensures UnloadedExact(store, inner, [h], e.unloaded) ==> UnloadedExact(store', inner', [h], e.unloaded)
  {
    hide ReachAny;
  }

  // ---------- Parents of a new block ----------

  datatype Verdict = Fine | Refused | Incomplete

  /** The parent is stored, lower and in an earlier slot. */
  predicate ParentFine(store: Store, hd: Header, p: Hash) {
    p in store && store[p].height < hd.height && store[p].slot < hd.slot
  }

  predicate ParentsFine(store: Store, hd: Header) {
    hd.parents != [] && forall p :: p in hd.parents ==> ParentFine(store, hd, p)
  }

  predicate SameSlots(store: Store, parents: seq<Hash>) {
    forall p, q :: p in parents && q in parents && p in store && q in store ==> store[p].slot == store[q].slot
  }

  /** The first loop of verifyBlockParents. It reports the first parent that is missing or not fine. */
  method CheckParents(store: Store, hd: Header) returns (r: Verdict, slotsEqual: bool)
    ensures r == Fine <==> ParentsFine(store, hd)
    ensures r == Incomplete <==>
      exists i :: 0 <= i < |hd.parents| && hd.parents[i] !in store && forall j :: 0 <= j < i ==> ParentFine(store, hd, hd.parents[j])
    ensures r == Fine ==> (slotsEqual <==> SameSlots(store, hd.parents))
  {
    var ps := hd.parents;
    slotsEqual := true;
    if ps == [] {
      return Refused, slotsEqual;
    }
    for i := 0 to |ps|
      invariant forall j :: 0 <= j < i ==> ParentFine(store, hd, ps[j])
      invariant slotsEqual <==> forall j :: 0 <= j < i ==> store[ps[j]].slot == store[ps[0]].slot
    {
      assert ps[i] in ps;
      if ps[i] !in store {
        return Incomplete, slotsEqual;
      }
      var parent := store[ps[i]];
      if parent.height >= hd.height || parent.slot >= hd.slot {
        return Refused, slotsEqual;
      }
      if i > 0 && parent.slot != store[ps[0]].slot {
        slotsEqual := false;
      }
    }
    AllSlots(store, ps, slotsEqual);
    return Fine, slotsEqual;
  }

  lemma AllSlots(store: Store, ps: seq<Hash>, equal: bool)
    requires ps != [] && (forall j :: 0 <= j < |ps| ==> ps[j] in store)
    requires equal <==> forall j :: 0 <= j < |ps| ==> store[ps[j]].slot == store[ps[0]].slot
    ensures equal <==> SameSlots(store, ps)
  {
    if SameSlots(store, ps) {
      forall j | 0 <= j < |ps| ensures store[ps[j]].slot == store[ps[0]].slot {
        assert ps[j] in ps && ps[0] in ps;
      }
    }
  }

  ghost predicate SlotsDescend(store: Store) {
    forall h, p :: h in store && p in store[h].parents && p in store ==> store[p].slot < store[h].slot
  }

  lemma {:induction false} AncestorSlots(store: Store, genesis: Hash, a: Hash, b: Hash)
    requires Rooted(store, genesis) && SlotsDescend(store) && a in store && b in store && a != b && Reach(store, store.Keys, a, b)
    ensures store[b].slot < store[a].slot
    decreases Depth(store, a)
  {
    hide Reach;
    var p := FirstStep(store, store.Keys, a, b);
    if p != b {
      AncestorSlots(store, genesis, p, b);
    }
  }

  /** No unfinalised parent has another parent among its ancestors. */
  ghost predicate Apart(store: Store, parents: seq<Hash>) {
    forall p, q :: p in parents && q in parents && p in store && !Finalized(store[p]) ==> q !in Past(store, p)
  }

  /** Parents in one slot need not be searched: they are not each other's ancestors. */
  lemma SameSlotsApart(store: Store, genesis: Hash, parents: seq<Hash>)
    requires Rooted(store, genesis) && SlotsDescend(store) && SameSlots(store, parents)
    ensures Apart(store, parents)
  {
    hide Reach;
    forall p, q | p in parents && q in parents && p in store && !Finalized(store[p]) ensures q !in Past(store, p) {
      if q in Past(store, p) {
        AncestorSlots(store, genesis, p, q);
      }
    }
  }
}
