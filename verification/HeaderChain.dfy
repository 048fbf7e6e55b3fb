/** HeaderChain (core/headerchain.go): the memoised search for the ancestors of a block after a checkpoint. */
module HeaderChains {
  import opened Basics
  import opened Transactions
  import opened HashArrays
  import opened Dag

  datatype SearchError = NoError | CpNotFinalized | NoParents

  type HeaderMap = map<Hash, Header>

  /** CollectAncestorsResult: a cached answer for one checkpoint. */
  datatype Collected = Collected(cp: Hash, isCp: bool, ancestors: HeaderMap, unloaded: seq<Hash>, err: SearchError)

  predicate Finalized(hd: Header) {
    hd.height == 0 || hd.nr > 0
  }

  /** Blocks the search looks behind: stored, not the checkpoint, not numbered below it, not without parents. */
  function Expanding(store: Store, cp: Hash): set<Hash>
    requires cp in store
  {
    set h | h in store && h != cp && !(Finalized(store[h]) && store[h].nr < store[cp].nr) && store[h].parents != []
  }

  ghost predicate AncestorsExact(store: Store, inner: set<Hash>, starts: seq<Hash>, ancestors: HeaderMap) {
    && (forall x :: x in ancestors <==> x in inner && ReachAny(store, inner, starts, x))
    && (forall x :: x in ancestors ==> x in store && ancestors[x] == store[x])
  }

  ghost predicate UnloadedExact(store: Store, inner: set<Hash>, starts: seq<Hash>, unloaded: seq<Hash>) {
    NoDup(unloaded) && forall x :: x in unloaded <==> x !in store && ReachAny(store, inner, starts, x)
  }

  /** The answer is exactly what plain reachability gives. */
  ghost predicate Exact(store: Store, cp: Hash, starts: seq<Hash>, isCp: bool, ancestors: HeaderMap, unloaded: seq<Hash>)
    requires cp in store
  {
    var inner := Expanding(store, cp);
    && (isCp <==> ReachAny(store, inner, starts, cp))
    && AncestorsExact(store, inner, starts, ancestors)
    && UnloadedExact(store, inner, starts, unloaded)
  }

  /** The error reported for a block: the one found along its chain of last parents. */
  ghost function ErrorOf(store: Store, genesis: Hash, cp: Hash, h: Hash): SearchError
    requires Ranked(store) && cp in store
    decreases Depth(store, h)
  {
    if h !in store || h == cp || (Finalized(store[h]) && store[h].nr < store[cp].nr) then NoError
    else
      var ps := store[h].parents;
      if ps == [] then (if h == genesis then NoError else NoParents)
      else
        assert ps[|ps| - 1] in ps;
        ErrorOf(store, genesis, cp, ps[|ps| - 1])
  }

  ghost predicate CorrectEntry(store: Store, genesis: Hash, h: Hash, e: Collected) {
    && Ranked(store) && e.cp in store && Finalized(store[e.cp])
    && Exact(store, e.cp, [h], e.isCp, e.ancestors, e.unloaded) && e.err == ErrorOf(store, genesis, e.cp, h)
  }

  ghost predicate IsParent(store: Store, p: Hash) {
    exists h :: h in store && p in store[h].parents
  }

  /** The cache holds answers for parents of stored blocks beside what it held before. */
  ghost predicate Grown(store: Store, before: set<Hash>, after: set<Hash>) {
    forall p :: p in after ==> p in before || IsParent(store, p)
  }

  class HeaderChain {
    var store: Store
    const genesis: Hash
    var ancestorCache: map<Hash, Collected>

    constructor (genesis: Hash, header: Header)
      requires header.parents == []
      ensures this.genesis == genesis && store == map[genesis := header] && ancestorCache == map[] && CacheOk()
    {
      this.genesis := genesis;
      store, ancestorCache := map[genesis := header], map[];
    }

    ghost predicate CacheOk()
      reads this
    {
      Ranked(store) && forall h :: h in ancestorCache ==> CorrectEntry(store, genesis, h, ancestorCache[h])
    }

    /** A look-up in the cache, which may have lost any entries since it was last used. */
    method Cached(h: Hash) returns (r: Option<Collected>)
      requires CacheOk()
      modifies this`ancestorCache
      ensures CacheOk()
      ensures r.Some? ==> CorrectEntry(store, genesis, h, r.value) && h in ancestorCache && ancestorCache[h] == r.value
      ensures ancestorCache.Keys <= old(ancestorCache.Keys)
    {
      hide CorrectEntry;
      var kept: set<Hash> := *;
      ancestorCache := map x | x in ancestorCache && x in kept :: ancestorCache[x];
      r := if h in ancestorCache then Some(ancestorCache[h]) else None;
    }

    method CollectFrom(h: Hash, cp: Hash) returns (isCp: bool, ancestors: HeaderMap, unloaded: seq<Hash>, err: SearchError)
      requires CacheOk() && cp in store
      modifies this`ancestorCache
      ensures CacheOk() && Grown(store, old(ancestorCache.Keys), ancestorCache.Keys)
      ensures !Finalized(store[cp]) ==> !isCp && ancestors == map[] && unloaded == [] && err == CpNotFinalized
      ensures Finalized(store[cp]) ==> Exact(store, cp, [h], isCp, ancestors, unloaded) && err == ErrorOf(store, genesis, cp, h)
      decreases Depth(store, h), 0
    {
      hide Exact, Expanding, CorrectEntry, ErrorOf, Grown;
      isCp, ancestors, unloaded, err := false, map[], [], NoError;
      GrownSelf(store, ancestorCache.Keys);
      if !Finalized(store[cp]) {
        return false, map[], [], CpNotFinalized;
      }
      LeafCases(store, genesis, cp, h);
      if h !in store {
        return false, map[], [h], NoError;
      }
      if h == cp {
        return true, map[], [], NoError;
      }
      if Finalized(store[h]) && store[h].nr < store[cp].nr {
        return;
      }
      var parents := store[h].parents;
      if |parents| == 0 {
        return false, map[], [], if h == genesis then NoError else NoParents;
      }
      ancestors := map[h := store[h]];
      SearchStart(store, cp, h);
      for i := 0 to |parents|
        invariant CacheOk() && Grown(store, old(ancestorCache.Keys), ancestorCache.Keys)
        invariant SearchedSoFar(store, cp, h, i, isCp, ancestors, unloaded)
        invariant i > 0 ==> err == ErrorOf(store, genesis, cp, parents[i - 1])
      {
        ghost var keys := ancestorCache.Keys;
        var r := ParentAnswer(h, i, cp);
        GrownTrans(store, old(ancestorCache.Keys), keys, ancestorCache.Keys);
        SearchStep(store, cp, h, i, isCp, ancestors, unloaded, r);
        unloaded := Uniq(unloaded + r.unloaded);
        ancestors := ancestors + r.ancestors;
        isCp := isCp || r.isCp;
        err := r.err;
      }
      SearchEnd(store, genesis, cp, h, isCp, ancestors, unloaded);
    }

    /** The answer for one parent: a cached one for the same checkpoint, or a fresh one that is then cached. */
    method ParentAnswer(h: Hash, i: nat, cp: Hash) returns (r: Collected)
      requires CacheOk() && cp in store && Finalized(store[cp]) && h in store && i < |store[h].parents|
      modifies this`ancestorCache
      ensures CacheOk() && Grown(store, old(ancestorCache.Keys), ancestorCache.Keys)
      ensures Exact(store, cp, [store[h].parents[i]], r.isCp, r.ancestors, r.unloaded)
      ensures r.err == ErrorOf(store, genesis, cp, store[h].parents[i])
      ensures store[h].parents[i] in ancestorCache && ancestorCache[store[h].parents[i]] == r && r.cp == cp
      decreases Depth(store, store[h].parents[i]), 1
    {
      hide Exact, ErrorOf, Grown, CorrectEntry;
      var ph := store[h].parents[i];
      var hit := Cached(ph);
      GrownSelf(store, old(ancestorCache.Keys));
      GrownFewer(store, old(ancestorCache.Keys), old(ancestorCache.Keys), ancestorCache.Keys);
      if hit.Some? && hit.value.cp == cp {
        UseEntry(store, genesis, ph, hit.value);
        return hit.value;
      }
      ghost var keys := ancestorCache.Keys;
      var a, b, c, d := CollectFrom(ph, cp);
      r := Collected(cp, a, b, c, d);
      MakeEntry(store, genesis, ph, r);
      GrownMore(store, old(ancestorCache.Keys), keys, ancestorCache.Keys, h, i);
      assert ancestorCache[ph := r].Keys == ancestorCache.Keys + {ph};
      ancestorCache := ancestorCache[ph := r];
    }

    /** The search from several parents; it stops at the first one that reports an error. */
    method Collect(parents: seq<Hash>, cp: Hash)
      returns (isCp: bool, ancestors: HeaderMap, unloaded: seq<Hash>, err: SearchError, ghost done: nat)
      requires CacheOk() && cp in store
      modifies this`ancestorCache
      ensures CacheOk() && Grown(store, old(ancestorCache.Keys), ancestorCache.Keys)
      ensures done <= |parents| && Exact(store, cp, parents[..done], isCp, ancestors, unloaded)
      ensures if Finalized(store[cp]) then ErrorFree(store, genesis, cp, parents[..done]) else done == 0
      ensures if done == |parents| then err == NoError
              else err == (if Finalized(store[cp]) then ErrorOf(store, genesis, cp, parents[done]) else CpNotFinalized) && err != NoError
    {
      hide Exact, Expanding, ErrorOf, FirstOccurrences, CorrectEntry, Grown;
      isCp, ancestors, unloaded, err, done := false, map[], [], NoError, 0;
      NothingSearched(store, cp);
      GrownSelf(store, ancestorCache.Keys);
      assert parents[..0] == [];
      for i := 0 to |parents|
        invariant CacheOk() && Grown(store, old(ancestorCache.Keys), ancestorCache.Keys) && done == i && err == NoError
        invariant Exact(store, cp, parents[..i], isCp, ancestors, unloaded)
        invariant if Finalized(store[cp]) then ErrorFree(store, genesis, cp, parents[..i]) else i == 0
      {
        ghost var keys := ancestorCache.Keys;
        var isCpAnc, anc, unl, e := CollectFrom(parents[i], cp);
        GrownTrans(store, old(ancestorCache.Keys), keys, ancestorCache.Keys);
        err := e;
        if err != NoError {
          return;
        }
        assert parents[..i + 1] == parents[..i] + [parents[i]];
        Joined(store, cp, parents[..i], parents[i], isCp, ancestors, unloaded, isCpAnc, anc, unl);
        isCp := isCp || isCpAnc;
        ancestors := ancestors + anc;
        if |unl| > 0 {
          unloaded := Uniq(unloaded + unl);
        }
        done := i + 1;
      }
      assert parents[..|parents|] == parents;
    }
  }

  ghost predicate ErrorFree(store: Store, genesis: Hash, cp: Hash, starts: seq<Hash>)
    requires Ranked(store) && cp in store
  {
    forall i :: 0 <= i < |starts| ==> ErrorOf(store, genesis, cp, starts[i]) == NoError
  }

  lemma NothingSearched(store: Store, cp: Hash)
    requires cp in store
    ensures Exact(store, cp, [], false, map[], [])
  {
    hide Expanding;
  }

  lemma Joined(store: Store, cp: Hash, starts: seq<Hash>, h: Hash, isCp: bool, ancestors: HeaderMap, unloaded: seq<Hash>,
               isCp': bool, ancestors': HeaderMap, unloaded': seq<Hash>)
    requires cp in store && Exact(store, cp, starts, isCp, ancestors, unloaded) && Exact(store, cp, [h], isCp', ancestors', unloaded')
    ensures Exact(store, cp, starts + [h], isCp || isCp', ancestors + ancestors',
                  if unloaded' == [] then unloaded else FirstOccurrences(unloaded + unloaded'))
  {
    hide Expanding, ReachAny;
    var inner := Expanding(store, cp);
    ReachAnyMore(store, inner, starts, [h], cp);
    AncestorsJoined(store, inner, starts, [h], ancestors, ancestors');
    UnloadedJoined(store, inner, starts, [h], unloaded, unloaded');
  }

  lemma AncestorsJoined(store: Store, inner: set<Hash>, starts: seq<Hash>, more: seq<Hash>, ancestors: HeaderMap, ancestors': HeaderMap)
    requires AncestorsExact(store, inner, starts, ancestors) && AncestorsExact(store, inner, more, ancestors')
    ensures AncestorsExact(store, inner, starts + more, ancestors + ancestors')
  {
    forall x ensures ReachAny(store, inner, starts + more, x) <==> ReachAny(store, inner, starts, x) || ReachAny(store, inner, more, x) {
      ReachAnyMore(store, inner, starts, more, x);
    }
    hide ReachAny;
  }

  lemma UnloadedJoined(store: Store, inner: set<Hash>, starts: seq<Hash>, more: seq<Hash>, unloaded: seq<Hash>, unloaded': seq<Hash>)
    requires UnloadedExact(store, inner, starts, unloaded) && UnloadedExact(store, inner, more, unloaded')
    ensures UnloadedExact(store, inner, starts + more, FirstOccurrences(unloaded + unloaded'))
    ensures unloaded' == [] ==> UnloadedExact(store, inner, starts + more, unloaded)
  {
    forall x ensures ReachAny(store, inner, starts + more, x) <==> ReachAny(store, inner, starts, x) || ReachAny(store, inner, more, x) {
      ReachAnyMore(store, inner, starts, more, x);
    }
    FirstOccurrencesFacts(unloaded + unloaded');
    hide ReachAny, FirstOccurrences;
  }

  /** A block the search comes to that has no parents and is not genesis. */
  ghost predicate Orphan(store: Store, genesis: Hash, cp: Hash, x: Hash)
    requires cp in store
  {
    x in store && x != cp && !(Finalized(store[x]) && store[x].nr < store[cp].nr) && store[x].parents == [] && x != genesis
  }

  /** Every block but the last is in `inner`, and the next one is its last parent. */
  ghost predicate LastParents(store: Store, inner: set<Hash>, path: seq<Hash>) {
    && |path| > 0
    && forall i :: 0 <= i < |path| - 1 ==>
         path[i] in inner && path[i] in store && store[path[i]].parents != []
         && path[i + 1] == store[path[i]].parents[|store[path[i]].parents| - 1]
  }

  /** The last parents lead from `h` to an orphan. */
  ghost predicate LeadsToOrphan(store: Store, genesis: Hash, cp: Hash, h: Hash)
    requires cp in store
  {
    exists path :: LastParents(store, Expanding(store, cp), path) && path[0] == h && Orphan(store, genesis, cp, path[|path| - 1])
  }

  lemma OrphanBehind(store: Store, genesis: Hash, cp: Hash, h: Hash)
    requires cp in store && h in Expanding(store, cp)
    ensures LeadsToOrphan(store, genesis, cp, h) <==> LeadsToOrphan(store, genesis, cp, store[h].parents[|store[h].parents| - 1])
  {
    var inner, p := Expanding(store, cp), store[h].parents[|store[h].parents| - 1];
    hide Expanding, Orphan, LastParents;
    if path :| LastParents(store, inner, path) && path[0] == h && Orphan(store, genesis, cp, path[|path| - 1]) {
      var rest := path[1..];
      ShorterPath(store, inner, path, genesis, cp);
      assert LastParents(store, inner, rest) && rest[0] == p && rest[|rest| - 1] == path[|path| - 1];
    }
    if path :| LastParents(store, inner, path) && path[0] == p && Orphan(store, genesis, cp, path[|path| - 1]) {
      var longer := [h] + path;
      LongerPath(store, inner, path, h);
      assert longer[0] == h && longer[|longer| - 1] == path[|path| - 1];
    }
  }

  lemma ShorterPath(store: Store, inner: set<Hash>, path: seq<Hash>, genesis: Hash, cp: Hash)
    requires cp in store && LastParents(store, inner, path) && path[0] in inner && inner == Expanding(store, cp)
    requires Orphan(store, genesis, cp, path[|path| - 1])
    ensures |path| > 1 && LastParents(store, inner, path[1..]) && path[1] == store[path[0]].parents[|store[path[0]].parents| - 1]
  {
    var rest := path[1..];
    assert |path| > 1;
    assert forall i :: 0 <= i < |rest| ==> rest[i] == path[i + 1];
  }

  lemma LongerPath(store: Store, inner: set<Hash>, path: seq<Hash>, h: Hash)
    requires LastParents(store, inner, path) && h in inner && h in store && store[h].parents != []
    requires path[0] == store[h].parents[|store[h].parents| - 1]
    ensures LastParents(store, inner, [h] + path)
  {
    var longer := [h] + path;
    forall i | 0 <= i < |longer| - 1 ensures
      longer[i] in inner && longer[i] in store && store[longer[i]].parents != []
      && longer[i + 1] == store[longer[i]].parents[|store[longer[i]].parents| - 1] {
      assert i > 0 ==> longer[i] == path[i - 1] && longer[i + 1] == path[i];
    }
  }

  lemma OrphanAtOnce(store: Store, genesis: Hash, cp: Hash, h: Hash)
    requires cp in store && h !in Expanding(store, cp)
    ensures LeadsToOrphan(store, genesis, cp, h) <==> Orphan(store, genesis, cp, h)
  {
    if Orphan(store, genesis, cp, h) {
      assert LastParents(store, Expanding(store, cp), [h]) && [h][0] == h;
    }
    if path :| LastParents(store, Expanding(store, cp), path) && path[0] == h && Orphan(store, genesis, cp, path[|path| - 1]) {
      assert |path| == 1;
    }
  }

  /** An orphan is reported exactly when the last parents lead to one. */
  lemma {:induction false} ErrorReported(store: Store, genesis: Hash, cp: Hash, h: Hash)
    requires Ranked(store) && cp in store
    ensures ErrorOf(store, genesis, cp, h) == if LeadsToOrphan(store, genesis, cp, h) then NoParents else NoError
    decreases Depth(store, h)
  {
    hide LeadsToOrphan;
    if h in Expanding(store, cp) {
      var ps := store[h].parents;
      assert ps[|ps| - 1] in ps;
      ErrorReported(store, genesis, cp, ps[|ps| - 1]);
      OrphanBehind(store, genesis, cp, h);
    } else {
      OrphanAtOnce(store, genesis, cp, h);
    }
  }

  /** An orphan that is reached is lost, no error being reported, exactly when the last parents lead to no orphan. */
  lemma LostOrphan(store: Store, genesis: Hash, cp: Hash, h: Hash, x: Hash)
    requires Ranked(store) && cp in store && Orphan(store, genesis, cp, x) && Reach(store, Expanding(store, cp), h, x)
    ensures ErrorOf(store, genesis, cp, h) == NoError <==>
      forall path :: LastParents(store, Expanding(store, cp), path) && path[0] == h ==> !Orphan(store, genesis, cp, path[|path| - 1])
  {
    ErrorReported(store, genesis, cp, h);
  }

  /** No error is ever reported exactly when there is no orphan. */
  lemma NoOrphansNoError(store: Store, genesis: Hash, cp: Hash)
    requires Ranked(store) && cp in store
    ensures (forall h: Hash :: ErrorOf(store, genesis, cp, h) == NoError) <==> (forall x: Hash :: !Orphan(store, genesis, cp, x))
  {
    hide Orphan;
    if x: Hash :| Orphan(store, genesis, cp, x) {
      OrphanReports(store, genesis, cp, x);
    }
    if h: Hash :| ErrorOf(store, genesis, cp, h) != NoError {
      ErrorReported(store, genesis, cp, h);
    }
  }

  lemma OrphanReports(store: Store, genesis: Hash, cp: Hash, x: Hash)
    requires Ranked(store) && cp in store && Orphan(store, genesis, cp, x)
    ensures ErrorOf(store, genesis, cp, x) == NoParents
  {
  }

  /** An error found through an earlier parent is lost: here block 3 is reached, has no parents and is not genesis. */
  lemma SwallowedError()
    ensures var store: Store := map[
        1 := Header([], 0, 0, 1, 0), 2 := Header([3, 1], 2, 2, 1, 0), 3 := Header([], 1, 1, 1, 0)];
      && Ranked(store) && ErrorOf(store, 1, 1, 2) == NoError
      && Reach(store, Expanding(store, 1), 2, 3) && Orphan(store, 1, 1, 3) && ErrorOf(store, 1, 1, 3) == NoParents
  {
    var store: Store := map[
      1 := Header([], 0, 0, 1, 0), 2 := Header([3, 1], 2, 2, 1, 0), 3 := Header([], 1, 1, 1, 0)];
    var path := [2, 3];
    assert Path(store, Expanding(store, 1), path) && path[0] == 2 && path[1] == 3;
  }

  lemma GrownSelf(store: Store, keys: set<Hash>)
    ensures Grown(store, keys, keys)
  {
  }

  lemma GrownFewer(store: Store, before: set<Hash>, keys: set<Hash>, fewer: set<Hash>)
    requires Grown(store, before, keys) && fewer <= keys
    ensures Grown(store, before, fewer)
  {
  }

  lemma GrownTrans(store: Store, before: set<Hash>, keys: set<Hash>, after: set<Hash>)
    requires Grown(store, before, keys) && Grown(store, keys, after)
    ensures Grown(store, before, after)
  {
  }

  lemma GrownMore(store: Store, before: set<Hash>, keys: set<Hash>, after: set<Hash>, h: Hash, i: nat)
    requires Grown(store, before, keys) && Grown(store, keys, after) && h in store && i < |store[h].parents|
    ensures Grown(store, before, after + {store[h].parents[i]})
  {
    assert IsParent(store, store[h].parents[i]);
  }

  lemma MakeEntry(store: Store, genesis: Hash, h: Hash, e: Collected)
    requires Ranked(store) && e.cp in store && Finalized(store[e.cp])
    requires Exact(store, e.cp, [h], e.isCp, e.ancestors, e.unloaded) && e.err == ErrorOf(store, genesis, e.cp, h)
    ensures CorrectEntry(store, genesis, h, e)
  {
  }

  lemma UseEntry(store: Store, genesis: Hash, h: Hash, e: Collected)
    requires CorrectEntry(store, genesis, h, e)
    ensures Ranked(store) && e.cp in store && Finalized(store[e.cp])
    ensures Exact(store, e.cp, [h], e.isCp, e.ancestors, e.unloaded) && e.err == ErrorOf(store, genesis, e.cp, h)
  {
  }

  /** Blocks the search does not look behind answer for themselves. */
  lemma LeafCases(store: Store, genesis: Hash, cp: Hash, h: Hash)
    requires Ranked(store) && cp in store
    ensures h !in store ==> Exact(store, cp, [h], false, map[], [h]) && ErrorOf(store, genesis, cp, h) == NoError
    ensures h == cp ==> Exact(store, cp, [h], true, map[], []) && ErrorOf(store, genesis, cp, h) == NoError
    ensures h in store && h != cp && Finalized(store[h]) && store[h].nr < store[cp].nr ==>
              Exact(store, cp, [h], false, map[], []) && ErrorOf(store, genesis, cp, h) == NoError
    ensures h in store && h != cp && !(Finalized(store[h]) && store[h].nr < store[cp].nr) ==>
              if store[h].parents != [] then h in Expanding(store, cp)
              else && Exact(store, cp, [h], false, map[], [])
                   && ErrorOf(store, genesis, cp, h) == if h == genesis then NoError else NoParents
  {
    var inner := Expanding(store, cp);
    forall x ensures ReachAny(store, inner, [h], x) <==> Reach(store, inner, h, x) {
      ReachOne(store, inner, h, x);
    }
    forall x ensures h !in inner ==> (Reach(store, inner, h, x) <==> x == h) {
      ReachUnfold(store, inner, h, x);
    }
    hide Reach, ReachAny;
  }

  /** The block itself and what its first `i` parents reach. */
  ghost predicate SearchedSoFar(store: Store, cp: Hash, h: Hash, i: nat, isCp: bool, ancestors: HeaderMap, unloaded: seq<Hash>)
    requires cp in store
  {
    var inner := Expanding(store, cp);
    && h in store && h in inner && i <= |store[h].parents|
    && (isCp <==> ReachAny(store, inner, store[h].parents[..i], cp))
    && (forall x :: x in ancestors <==> x == h || (x in inner && ReachAny(store, inner, store[h].parents[..i], x)))
    && (forall x :: x in ancestors ==> x in store && ancestors[x] == store[x])
    && UnloadedExact(store, inner, store[h].parents[..i], unloaded)
  }

  lemma SearchStart(store: Store, cp: Hash, h: Hash)
    requires cp in store && h in store && h in Expanding(store, cp)
    ensures SearchedSoFar(store, cp, h, 0, false, map[h := store[h]], [])
  {
    assert store[h].parents[..0] == [];
  }

  lemma SearchStep(store: Store, cp: Hash, h: Hash, i: nat, isCp: bool, ancestors: HeaderMap, unloaded: seq<Hash>, r: Collected)
    requires cp in store && SearchedSoFar(store, cp, h, i, isCp, ancestors, unloaded) && i < |store[h].parents|
    requires Exact(store, cp, [store[h].parents[i]], r.isCp, r.ancestors, r.unloaded)
    ensures SearchedSoFar(store, cp, h, i + 1, isCp || r.isCp, ancestors + r.ancestors, FirstOccurrences(unloaded + r.unloaded))
  {
    hide Expanding, ReachAny, FirstOccurrences;
    var inner, ps := Expanding(store, cp), store[h].parents;
    assert ps[..i + 1] == ps[..i] + [ps[i]];
    forall x ensures ReachAny(store, inner, ps[..i + 1], x) <==> ReachAny(store, inner, ps[..i], x) || ReachAny(store, inner, [ps[i]], x) {
      ReachAnyMore(store, inner, ps[..i], [ps[i]], x);
    }
    UnloadedJoined(store, inner, ps[..i], [ps[i]], unloaded, r.unloaded);
    hide UnloadedExact, NoDup;
  }

  lemma SearchEnd(store: Store, genesis: Hash, cp: Hash, h: Hash, isCp: bool, ancestors: HeaderMap, unloaded: seq<Hash>)
    requires Ranked(store) && cp in store && h in store && SearchedSoFar(store, cp, h, |store[h].parents|, isCp, ancestors, unloaded)
    ensures Exact(store, cp, [h], isCp, ancestors, unloaded)
    ensures store[h].parents != [] && ErrorOf(store, genesis, cp, h) == ErrorOf(store, genesis, cp, store[h].parents[|store[h].parents| - 1])
  {
    var inner, ps := Expanding(store, cp), store[h].parents;
    assert ps[..|ps|] == ps;
    forall x ensures ReachAny(store, inner, [h], x) <==> x == h || ReachAny(store, inner, ps, x) {
      ReachOne(store, inner, h, x);
      ReachUnfold(store, inner, h, x);
    }
    hide ReachAny;
  }
}
