/** Removing blocks (core/blockchain.go): rmBlockData deletes a block after all that is built on it. */
module Removal {
  import opened Basics
  import opened Transactions
  import opened HashArrays
  import opened Dag

  /** A hash names one block: this is the header behind it. */
  type Book = Hash -> Header

  type Children = map<Hash, seq<Hash>>

  /** Child lists cover the parent links; they may still name removed blocks, but only with the right parent. */
  ghost predicate Linked(store: Store, children: Children, book: Book) {
    && Ranked(store) && ZERO_HASH !in store
    && (forall h :: h in store ==> store[h].parents == book(h).parents)
    && (forall h, p :: h in store && p in store[h].parents ==> p in store && p in children && h in children[p])
    && (forall p, c :: p in children && c in children[p] ==> p in book(c).parents)
    && (forall p :: p in children ==> p in store)
  }

  /** A block and everything built on it. */
  ghost function Built(store: Store, h: Hash): set<Hash> {
    set x | x in store && h in store && Reach(store, store.Keys, x, h)
  }

  /** Everything built on a block of the list. */
  ghost function BuiltOnAny(store: Store, hs: seq<Hash>): set<Hash> {
    set x | x in store && exists h :: h in hs && x in Built(store, h)
  }

  /** With every block the set holds what is built on it. */
  ghost predicate UpClosed(store: Store, gone: set<Hash>) {
    forall x, y :: x in store && y in gone && Reach(store, store.Keys, x, y) ==> x in gone
  }

  lemma BuiltIsClosed(store: Store, hs: seq<Hash>)
    requires Ranked(store)
    ensures UpClosed(store, BuiltOnAny(store, hs))
  {
    hide Reach;
    forall x, y | x in store && y in BuiltOnAny(store, hs) && Reach(store, store.Keys, x, y) ensures x in BuiltOnAny(store, hs) {
      var h :| h in hs && y in Built(store, h);
      ReachTrans(store, store.Keys, x, y, h);
      assert x in Built(store, h);
    }
  }

  /** Outside an upward closed set, reachability does not notice its removal. */
  lemma {:induction false} ReachOutside(store: Store, gone: set<Hash>, x: Hash, h: Hash)
    requires Ranked(store) && UpClosed(store, gone) && x in store && x !in gone
    ensures Reach(store - gone, (store - gone).Keys, x, h) <==> Reach(store, store.Keys, x, h)
    decreases Depth(store, x)
  {
    hide Reach;
    var left := store - gone;
    ReachUnfold(store, store.Keys, x, h);
    ReachUnfold(left, left.Keys, x, h);
    forall p | p in store[x].parents ensures Reach(left, left.Keys, p, h) <==> Reach(store, store.Keys, p, h) {
      ReachSelf(store, store.Keys, p);
      ReachByParent(store, store.Keys, x, p, p);
      if p in store {
        ReachOutside(store, gone, p, h);
      } else {
        ReachUnfold(store, store.Keys, p, h);
        ReachUnfold(left, left.Keys, p, h);
      }
    }
  }

  lemma BuiltOutside(store: Store, gone: set<Hash>, h: Hash)
    requires Ranked(store) && UpClosed(store, gone)
    ensures Built(store - gone, h) == Built(store, h) - gone
  {
    hide Reach;
    forall x ensures x in Built(store - gone, h) <==> x in Built(store, h) && x !in gone {
      if x in store && x !in gone {
        ReachOutside(store, gone, x, h);
      }
    }
  }

  /** Whatever is built on a block is built on one of its children. */
  lemma {:induction false} LastStep(store: Store, x: Hash, h: Hash) returns (c: Hash)
    requires Ranked(store) && Reach(store, store.Keys, x, h) && x != h
    ensures c in store && h in store[c].parents && Reach(store, store.Keys, x, c)
    decreases Depth(store, x)
  {
    hide Reach;
    var p := FirstStep(store, store.Keys, x, h);
    if p == h {
      ReachSelf(store, store.Keys, x);
      c := x;
    } else {
      c := LastStep(store, p, h);
      ReachByParent(store, store.Keys, x, p, c);
    }
  }

  lemma BuiltOnChildren(store: Store, children: Children, book: Book, h: Hash, kids: seq<Hash>)
    requires Linked(store, children, book) && h in store && kids == (if h in children then children[h] else [])
    ensures Built(store, h) == BuiltOnAny(store, kids) + {h}
  {
    hide Reach;
    forall x ensures x in Built(store, h) <==> x == h || x in BuiltOnAny(store, kids) {
      ReachSelf(store, store.Keys, h);
      if x in Built(store, h) && x != h {
        var c := LastStep(store, x, h);
        assert c in kids && x in Built(store, c);
      }
      if x in BuiltOnAny(store, kids) {
        var c :| c in kids && x in Built(store, c);
        ReachSelf(store, store.Keys, h);
        ReachByParent(store, store.Keys, c, h, h);
        ReachTrans(store, store.Keys, x, c, h);
      }
    }
  }

  /** Removing an upward closed set leaves no block without its parents. */
  lemma StillLinked(store: Store, children: Children, book: Book, gone: set<Hash>)
    requires Linked(store, children, book) && UpClosed(store, gone)
    ensures Linked(store - gone, children - gone, book)
  {
    hide Reach;
    var left := store - gone;
    forall h, p | h in left && p in left[h].parents ensures p in left {
      ReachSelf(store, store.Keys, p);
      ReachByParent(store, store.Keys, h, p, p);
    }
  }

  class BlockStore {
    var store: Store
    var children: Children
    ghost const book: Book

    ghost predicate Valid()
      reads this
    {
      Linked(store, children, book)
    }

    constructor (genesis: Hash, header: Header, ghost book: Book)
      requires genesis != ZERO_HASH && header.parents == [] && book(genesis) == header
      ensures Valid() && store == map[genesis := header] && this.book == book
    {
      store, children := map[genesis := header], map[];
      this.book := book;
    }

    /** AppendToChildren: the block joins the child list of each parent. */
    method AppendToChildren(child: Hash, parents: seq<Hash>)
      modifies this`children
      ensures children.Keys == old(children.Keys) + Elements(parents)
      ensures forall p :: p in children ==>
        forall c :: c in children[p] <==> (p in old(children) && c in old(children)[p]) || (p in parents && c == child)
    {
      hide FirstOccurrences;
      var batch: Children := map[];
      for i := 0 to |parents|
        invariant children == old(children) && batch.Keys == Elements(parents[..i])
        invariant forall p :: p in batch ==> Appended(children, batch, p, child)
      {
        Next(parents, i);
        var kids := if parents[i] in children then children[parents[i]] else [];
        FirstOccurrencesFacts(kids + [child]);
        var list := Uniq(kids + [child]);
        batch := batch[parents[i] := list];
      }
      assert parents[..|parents|] == parents;
      AppendDone(children, batch, parents, child);
      children := children + batch;
    }

    /** Writing a block whose parents are stored and lower. */
    method Insert(b: Hash, hd: Header)
      requires Valid() && b !in store && b != ZERO_HASH && book(b) == hd
      requires forall p :: p in hd.parents ==> p in store && store[p].height < hd.height
      modifies this
      ensures Valid() && store == old(store)[b := hd]
    {
      hide Linked;
      ghost var s0, c0 := store, children;
      store := store[b := hd];
      AppendToChildren(b, hd.parents);
      InsertLinked(s0, c0, book, b, hd, children);
    }

    /** Removes the block and all that is built on it, and nothing else. */
    method RmBlockData(h: Hash)
      requires Valid()
      modifies this
      ensures Valid()
      ensures store == old(store) - Built(old(store), h)
      ensures children == old(children) - Built(old(store), h)
    {
      ghost var top := Top(store);
      RmBelow(h, top);
    }

    method RmBelow(h: Hash, ghost top: nat)
      requires Valid() && forall x :: x in store ==> store[x].height <= top
      modifies this
      ensures Valid()
      ensures store == old(store) - Built(old(store), h)
      ensures children == old(children) - Built(old(store), h)
      decreases if h in store then top - store[h].height + 1 else 0
    {
      hide Linked, Built, BuiltOnAny;
      if h == ZERO_HASH {
        NotStored(store, children, book, h);
        return;
      }
      var kids := if h in children then children[h] else [];
      ghost var s0, c0 := store, children;
      KidsAbove(s0, c0, book, h, kids);
      NothingBuilt(s0, c0, kids);
      for i := 0 to |kids|
        invariant Valid()
        invariant store == s0 - BuiltOnAny(s0, kids[..i]) && children == c0 - BuiltOnAny(s0, kids[..i])
      {
        if kids[i] != ZERO_HASH {
          RmBelow(kids[i], top);
        }
        KidGone(s0, c0, book, kids, i);
      }
      assert kids[..|kids|] == kids;
      Finish(s0, c0, book, h, kids);
      store, children := store - {h}, children - {h};
    }
  }

  lemma InsertLinked(store: Store, children: Children, book: Book, b: Hash, hd: Header, after: Children)
    requires Linked(store, children, book) && b !in store && b != ZERO_HASH && book(b) == hd
    requires forall p :: p in hd.parents ==> p in store && store[p].height < hd.height
    requires after.Keys == children.Keys + Elements(hd.parents)
    requires forall p :: p in after ==>
      forall c :: c in after[p] <==> (p in children && c in children[p]) || (p in hd.parents && c == b)
    ensures Linked(store[b := hd], after, book)
  {
    var more := store[b := hd];
    forall h, p | h in more && p in more[h].parents ensures p in more && p in after && h in after[p] {
      assert h != b ==> p in children && h in children[p];
    }
    forall p, c | p in after && c in after[p] ensures p in book(c).parents {
      assert (p in children && c in children[p]) || (p in hd.parents && c == b);
    }
  }

  ghost predicate Appended(children: Children, batch: Children, p: Hash, child: Hash)
    requires p in batch
  {
    forall c :: c in batch[p] <==> (p in children && c in children[p]) || c == child
  }

  lemma AppendDone(children: Children, batch: Children, parents: seq<Hash>, child: Hash)
    requires batch.Keys == Elements(parents) && forall p :: p in batch ==> Appended(children, batch, p, child)
    ensures var after := children + batch;
      && after.Keys == children.Keys + Elements(parents)
      && forall p :: p in after ==>
           forall c :: c in after[p] <==> (p in children && c in children[p]) || (p in parents && c == child)
  {
    var after := children + batch;
    forall p, c | p in after ensures c in after[p] <==> (p in children && c in children[p]) || (p in parents && c == child) {
      assert p in batch <==> p in parents;
      if p in batch {
        assert Appended(children, batch, p, child);
      }
    }
  }

  ghost function Top(store: Store): (n: nat)
    ensures forall x :: x in store ==> store[x].height <= n
  {
    if store == map[] then 0 else
      var x :| x in store;
      var rest := Top(store - {x});
      assert forall y :: y in store ==> y == x || (y in store - {x} && (store - {x})[y] == store[y]);
      if rest < store[x].height then store[x].height else rest
  }

  lemma NotStored(store: Store, children: Children, book: Book, h: Hash)
    requires Linked(store, children, book) && (h !in store || h == ZERO_HASH)
    ensures store - Built(store, h) == store && children - Built(store, h) == children
  {
    assert Built(store, h) == {};
  }

  lemma KidsAbove(store: Store, children: Children, book: Book, h: Hash, kids: seq<Hash>)
    requires Linked(store, children, book) && kids == (if h in children then children[h] else [])
    ensures kids != [] ==> h in store
    ensures forall c :: c in kids && c in store ==> h in store && store[h].height < store[c].height
  {
  }

  lemma NothingBuilt(store: Store, children: Children, kids: seq<Hash>)
    ensures store == store - BuiltOnAny(store, kids[..0]) && children == children - BuiltOnAny(store, kids[..0])
  {
    assert BuiltOnAny(store, kids[..0]) == {};
  }

  /** One more child done; its own descendants may be gone already. */
  lemma KidGone(store: Store, children: Children, book: Book, kids: seq<Hash>, i: nat)
    requires Linked(store, children, book) && i < |kids|
    ensures var gone := BuiltOnAny(store, kids[..i]);
            var more := Built(store - gone, kids[i]);
            && store - gone - more == store - BuiltOnAny(store, kids[..i + 1])
            && children - gone - more == children - BuiltOnAny(store, kids[..i + 1])
            && (kids[i] == ZERO_HASH ==> more == {})
  {
    var gone := BuiltOnAny(store, kids[..i]);
    BuiltIsClosed(store, kids[..i]);
    BuiltOutside(store, gone, kids[i]);
    OneMoreBuilt(store, kids, i);
  }

  lemma OneMoreBuilt(store: Store, kids: seq<Hash>, i: nat)
    requires i < |kids|
    ensures BuiltOnAny(store, kids[..i + 1]) == BuiltOnAny(store, kids[..i]) + Built(store, kids[i])
  {
    hide Reach;
    assert kids[..i + 1] == kids[..i] + [kids[i]];
    forall x | x in Built(store, kids[i]) ensures x in BuiltOnAny(store, kids[..i + 1]) {
      assert kids[i] in kids[..i + 1];
    }
    hide Built;
  }

  lemma Finish(store: Store, children: Children, book: Book, h: Hash, kids: seq<Hash>)
    requires Linked(store, children, book) && kids == (if h in children then children[h] else [])
    ensures var gone := BuiltOnAny(store, kids);
      && store - gone - {h} == store - Built(store, h)
      && children - gone - {h} == children - Built(store, h)
      && Linked(store - Built(store, h), children - Built(store, h), book)
  {
    hide Built, BuiltOnAny, Linked, UpClosed;
    LinkedRanked(store, children, book);
    if h in store {
      BuiltOnChildren(store, children, book, h, kids);
      BuiltIsClosed(store, [h]);
      OnlyOne(store, h);
      StillLinked(store, children, book, Built(store, h));
    } else {
      NotStored(store, children, book, h);
      NoKids(store, children, book, h);
    }
  }

  lemma NoKids(store: Store, children: Children, book: Book, h: Hash)
    requires Linked(store, children, book) && h !in store
    ensures h !in children && store - BuiltOnAny(store, []) - {h} == store && children - BuiltOnAny(store, []) - {h} == children
  {
    assert BuiltOnAny(store, []) == {};
  }

  lemma LinkedRanked(store: Store, children: Children, book: Book)
    requires Linked(store, children, book)
    ensures Ranked(store)
  {
  }

  lemma OnlyOne(store: Store, h: Hash)
    ensures BuiltOnAny(store, [h]) == Built(store, h)
  {
    hide Reach;
    assert h in [h];
  }
}
