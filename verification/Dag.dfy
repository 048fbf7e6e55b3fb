/** The block DAG as a store of headers, and reachability through parents. */
module Dag {
  import opened Transactions

  /** `nr` is 0 when the header has no finalisation number. */
  datatype Header = Header(parents: seq<Hash>, height: nat, slot: nat, cp: Hash, nr: nat)

  type Store = map<Hash, Header>

  /** Every stored parent is strictly lower. */
  ghost predicate Ranked(store: Store) {
    forall h, p :: h in store && p in store[h].parents && p in store ==> store[p].height < store[h].height
  }

  /** Every block but the last is in `inner`, and each is a child of the next. */
  ghost predicate Path(store: Store, inner: set<Hash>, path: seq<Hash>) {
    && |path| > 0
    && forall i :: 0 <= i < |path| - 1 ==> path[i] in inner && path[i] in store && path[i + 1] in store[path[i]].parents
  }

  /** `b` is `a` or an ancestor of it through blocks of `inner`. */
  ghost predicate Reach(store: Store, inner: set<Hash>, a: Hash, b: Hash) {
    exists path :: Path(store, inner, path) && path[0] == a && path[|path| - 1] == b
  }

  lemma ReachSelf(store: Store, inner: set<Hash>, a: Hash)
    ensures Reach(store, inner, a, a)
  {
    assert Path(store, inner, [a]) && [a][0] == a;
  }

  lemma ReachByParent(store: Store, inner: set<Hash>, a: Hash, p: Hash, b: Hash)
    requires a in inner && a in store && p in store[a].parents && Reach(store, inner, p, b)
    ensures Reach(store, inner, a, b)
  {
    var path :| Path(store, inner, path) && path[0] == p && path[|path| - 1] == b;
    var longer := [a] + path;
    forall i | 0 <= i < |longer| - 1 ensures longer[i] in inner && longer[i] in store && longer[i + 1] in store[longer[i]].parents {
      if i > 0 {
        assert longer[i] == path[i - 1] && longer[i + 1] == path[i];
      }
    }
    assert Path(store, inner, longer) && longer[0] == a && longer[|longer| - 1] == b;
  }

  lemma FirstStep(store: Store, inner: set<Hash>, a: Hash, b: Hash) returns (p: Hash)
    requires Reach(store, inner, a, b) && a != b
    ensures a in inner && a in store && p in store[a].parents && Reach(store, inner, p, b)
  {
    var path :| Path(store, inner, path) && path[0] == a && path[|path| - 1] == b;
    p := path[1];
    var rest := path[1..];
    forall i | 0 <= i < |rest| - 1 ensures rest[i] in inner && rest[i] in store && rest[i + 1] in store[rest[i]].parents {
      assert rest[i] == path[i + 1] && rest[i + 1] == path[i + 2];
    }
    assert Path(store, inner, rest) && rest[0] == p && rest[|rest| - 1] == b;
  }

  /** Reached from some block of the list. */
  ghost predicate ReachAny(store: Store, inner: set<Hash>, starts: seq<Hash>, b: Hash) {
    exists s :: s in starts && Reach(store, inner, s, b)
  }

  /** A block of `inner` reaches itself and whatever its parents reach; any other block only itself. */
  lemma ReachUnfold(store: Store, inner: set<Hash>, a: Hash, b: Hash)
    ensures Reach(store, inner, a, b) <==>
      b == a || (a in inner && a in store && ReachAny(store, inner, store[a].parents, b))
  {
    ReachSelf(store, inner, a);
    hide Reach;
    if Reach(store, inner, a, b) && a != b {
      var p := FirstStep(store, inner, a, b);
    }
    if a in inner && a in store && ReachAny(store, inner, store[a].parents, b) {
      var p :| p in store[a].parents && Reach(store, inner, p, b);
      ReachByParent(store, inner, a, p, b);
    }
  }

  lemma ReachAnyMore(store: Store, inner: set<Hash>, starts: seq<Hash>, more: seq<Hash>, b: Hash)
    ensures ReachAny(store, inner, starts + more, b) <==> ReachAny(store, inner, starts, b) || ReachAny(store, inner, more, b)
  {
    hide Reach;
    if ReachAny(store, inner, starts, b) {
      var s :| s in starts && Reach(store, inner, s, b);
      assert s in starts + more;
    }
    if ReachAny(store, inner, more, b) {
      var s :| s in more && Reach(store, inner, s, b);
      assert s in starts + more;
    }
  }

  lemma ReachOne(store: Store, inner: set<Hash>, a: Hash, b: Hash)
    ensures ReachAny(store, inner, [a], b) <==> Reach(store, inner, a, b)
  {
    hide Reach;
    assert a in [a];
  }

  function Depth(store: Store, h: Hash): nat {
    if h in store then store[h].height + 1 else 0
  }

  lemma {:induction false} ReachTrans(store: Store, inner: set<Hash>, a: Hash, b: Hash, c: Hash)
    requires Ranked(store) && Reach(store, inner, a, b) && Reach(store, inner, b, c)
    ensures Reach(store, inner, a, c)
    decreases Depth(store, a)
  {
    hide Reach;
    if a != b {
      var p := FirstStep(store, inner, a, b);
      ReachTrans(store, inner, p, b, c);
      ReachByParent(store, inner, a, p, c);
    }
  }

  /** Ancestors are strictly lower. */
  lemma {:induction false} ReachDescends(store: Store, inner: set<Hash>, a: Hash, b: Hash)
    requires Ranked(store) && Reach(store, inner, a, b) && a != b
    ensures Depth(store, b) < Depth(store, a)
    decreases Depth(store, a)
  {
    hide Reach;
    var p := FirstStep(store, inner, a, b);
    if p != b {
      ReachDescends(store, inner, p, b);
    }
  }

  /** More inner blocks reach more; what is reached inside a set closed downwards stays the same. */
  lemma {:induction false} ReachMore(store: Store, inner: set<Hash>, inner': set<Hash>, a: Hash, b: Hash)
    requires Ranked(store) && Reach(store, inner, a, b) && inner <= inner'
    ensures Reach(store, inner', a, b)
    decreases Depth(store, a)
  {
    hide Reach;
    if a == b {
      ReachSelf(store, inner', a);
    } else {
      var p := FirstStep(store, inner, a, b);
      ReachMore(store, inner, inner', p, b);
      ReachByParent(store, inner', a, p, b);
    }
  }
}
