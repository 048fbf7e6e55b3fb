/** promoteExecutables and demoteUnexecutables (core/tx_pool.go) over all accounts, and runs of pool operations. */
module PoolRuns {
  import opened Basics
  import opened Transactions
  import opened Lookup
  import opened PricedList
  import opened TxLists
  import opened PoolContent
  import opened TxPools
  import PoolTruncation
  import QueueTruncation
  import SortedMap

  /** What the pool knows of the chain. */
  datatype Chain = Chain(nonce: Address -> nat, balance: Address -> nat, maxGas: nat)

  // ---------- promoteExecutables ----------

  /** Queued transactions that are neither stale nor unpayable, and no more of them than allowed. */
  ghost predicate Settled(items: Items, a: Address, c: Chain, cap: Option<nat>) {
    && (forall n :: n in items ==> c.nonce(a) <= n && Fits(items[n], c.balance(a), c.maxGas))
    && (cap.Some? ==> |items| <= cap.value)
  }

  function QueueCap(a: Address, locals: set<Address>, accountQueue: nat): Option<nat> {
    if a in locals then None else Some(accountQueue)
  }

  lemma PayableFacts(l: ListValue, nonce: nat, balance: nat, maxGas: nat)
    requires Capped(l) && !l.strict
    ensures var payable := Filtered(l.(items := AtLeast(l.items, nonce)), balance, maxGas).items;
      Within(payable, l.items) && forall n :: n in payable ==> nonce <= n && Fits(payable[n], balance, maxGas)
  {
    hide Unpayable, Filtered, Fits;
    ForwardParts(l, nonce);
    FilterPartition(l.(items := AtLeast(l.items, nonce)), balance, maxGas);
  }

  lemma CutFacts(items: Items, ready: Items, cap: Option<nat>)
    ensures var left := items - ready.Keys;
            var kept := if cap.Some? then Lowest(left, cap.value) else left;
            Within(kept, items) && (cap.Some? ==> |kept| <= cap.value)
  {
    if cap.Some? {
      LowestFacts(items - ready.Keys, cap.value);
    }
  }

  lemma PromotionSettles(l: ListValue, a: Address, c: Chain, pendingNonce: nat, cap: Option<nat>)
    requires Capped(l) && !l.strict
    ensures var r := Promote(l, c.nonce(a), c.balance(a), c.maxGas, pendingNonce, cap);
      && Within(r.ready, l.items) && Within(r.kept.items, l.items) && Settled(r.kept.items, a, c, cap)
  {
    hide Lowest, Filtered, Capped, Fits, AtLeast, Below, ReadyRun, Within, Settled;
    PayableFacts(l, c.nonce(a), c.balance(a), c.maxGas);
    var payable := Filtered(l.(items := AtLeast(l.items, c.nonce(a))), c.balance(a), c.maxGas).items;
    var ready := ReadyRun(payable, pendingNonce);
    CutFacts(payable, ready, cap);
    ReadyWithin(payable, pendingNonce);
    WithinTrans(ready, payable, l.items);
    var r := Promote(l, c.nonce(a), c.balance(a), c.maxGas, pendingNonce, cap);
    WithinTrans(r.kept.items, payable, l.items);
    SettledPart(r.kept.items, payable, a, c, cap);
  }

  lemma ReadyWithin(items: Items, start: nat)
    ensures Within(ReadyRun(items, start), items)
  {
  }

  lemma WithinTrans(a: Items, b: Items, c: Items)
    requires Within(a, b) && Within(b, c)
    ensures Within(a, c)
  {
  }

  lemma SettledPart(kept: Items, payable: Items, a: Address, c: Chain, cap: Option<nat>)
    requires Within(kept, payable) && (cap.Some? ==> |kept| <= cap.value)
    requires forall n :: n in payable ==> c.nonce(a) <= n && Fits(payable[n], c.balance(a), c.maxGas)
    ensures Settled(kept, a, c, cap)
  {
  }

  /** What is left after taking out the ready run starts above the nonce that follows the run. */
  lemma RunIsMaximal(items: Items, start: nat, next: nat, n: nat)
    requires var ready := ReadyRun(items, start);
      && (ready == map[] ==> next == start)
      && (ready != map[] ==> next >= 1 && next - 1 in ready && forall k :: k in ready ==> k < next)
    requires n in items && n !in ReadyRun(items, start)
    ensures next < n
  {
    var ready, lo := ReadyRun(items, start), Min(items.Keys);
    if start >= lo {
      assert InRun(items, lo, lo) && lo in ready;
    }
    if ready != map[] && n <= next {
      assert InRun(items, lo, next - 1);
      assert InRun(items, lo, n);
      assert false;
    }
  }

  /** Filtering a list that already fits takes nothing from it. */
  lemma FilteredAlready(l: ListValue, nonce: nat, balance: nat, maxGas: nat)
    requires Capped(l) && !l.strict
    requires forall n :: n in l.items ==> nonce <= n && Fits(l.items[n], balance, maxGas)
    ensures Filtered(l.(items := AtLeast(l.items, nonce)), balance, maxGas).items == l.items
  {
    assert AtLeast(l.items, nonce) == l.items;
    FilterPartition(l, balance, maxGas);
  }

  /** A second promotion of the same account finds nothing ready and drops nothing. */
  lemma PromoteAgain(l0: ListValue, l: ListValue, a: Address, c: Chain, next0: nat, next: nat, cap: Option<nat>)
    requires Capped(l0) && !l0.strict && Capped(l) && !l.strict
    requires var r := Promote(l0, c.nonce(a), c.balance(a), c.maxGas, next0, cap);
      && l.items == r.kept.items
      && (r.ready == map[] ==> next == next0)
      && (r.ready != map[] ==> next >= 1 && next - 1 in r.ready && forall k :: k in r.ready ==> k < next)
    ensures var s := Promote(l, c.nonce(a), c.balance(a), c.maxGas, next, cap);
      s.ready == map[] && s.kept.items == l.items
  {
    hide Lowest, Filtered, Capped, Fits, AtLeast, Below, ReadyRun, InRun;
    PromotionSettles(l0, a, c, next0, cap);
    FilteredAlready(l, c.nonce(a), c.balance(a), c.maxGas);
    var payable := Filtered(l0.(items := AtLeast(l0.items, c.nonce(a))), c.balance(a), c.maxGas).items;
    CutFacts(payable, ReadyRun(payable, next0), cap);
    LeftOnly(payable, ReadyRun(payable, next0), cap);
    forall n | n in l.items ensures next < n {
      RunIsMaximal(payable, next0, next, n);
    }
    NothingReady(l.items, next, cap);
  }

  lemma LeftOnly(items: Items, ready: Items, cap: Option<nat>)
    ensures var left := items - ready.Keys;
            var kept := if cap.Some? then Lowest(left, cap.value) else left;
            forall n :: n in kept ==> n in items && n !in ready
  {
  }

  lemma NothingReady(items: Items, next: nat, cap: Option<nat>)
    requires (forall n :: n in items ==> next < n) && (cap.Some? ==> |items| <= cap.value)
    ensures ReadyRun(items, next) == map[]
    ensures items - ReadyRun(items, next).Keys == items
    ensures cap.Some? ==> Lowest(items, cap.value) == items
  {
    if cap.Some? {
      SortedMap.LowestAll(items, cap.value);
    }
  }

  /** The virtual nonce after promoting `ready` is one above its highest nonce. */
  lemma NextNonce(nonces: map<Address, nat>, fallback: Address -> nat, a: Address, ready: Items)
    requires Keyed(ready)
    ensures var next := NonceOf(NextAfter(nonces, a, Sorted(ready)), fallback, a);
      && (ready == map[] ==> next == NonceOf(nonces, fallback, a))
      && (ready != map[] ==> next >= 1 && next - 1 in ready && forall k :: k in ready ==> k < next)
  {
    hide Sorted, Keyed;
    if ready != map[] {
      LastOfSorted(ready);
    }
  }

  lemma LastOfSorted(items: Items)
    requires Keyed(items) && items != map[]
    ensures |Sorted(items)| > 0 && Sorted(items)[|Sorted(items)| - 1].nonce in items
    ensures forall n :: n in items ==> n <= Sorted(items)[|Sorted(items)| - 1].nonce
  {
    hide Sorted;
    NotEmpty(items);
    SortedMap.SortedEnumerates(items);
    var keys := SortedKeys(items.Keys);
    assert keys[|keys| - 1] in Elements(keys);
    forall n | n in items ensures n <= keys[|keys| - 1] {
      assert n in Elements(keys);
    }
  }

  /** What promotion makes of an account: its ready transactions are pending, the rest of its queue is settled,
      and its virtual nonce follows the last ready one. */
  ghost predicate MovedUp(p0: Lists, q0: Lists, nonces0: map<Address, nat>, p: Lists, q: Lists, nonces: map<Address, nat>,
                          a: Address, c: Chain, cap: Option<nat>) {
    if a in q0 then
      var r := Promote(q0[a], c.nonce(a), c.balance(a), c.maxGas, NonceOf(nonces0, c.nonce, a), cap);
      && ItemsOf(p, a) == ItemsOf(p0, a) + r.ready && ItemsOf(q, a) == r.kept.items
      && NonceOf(nonces, c.nonce, a) == NonceOf(NextAfter(nonces0, a, Sorted(r.ready)), c.nonce, a)
    else
      ItemsOf(p, a) == ItemsOf(p0, a) && ItemsOf(q, a) == map[] && NonceOf(nonces, c.nonce, a) == NonceOf(nonces0, c.nonce, a)
  }

  ghost predicate Waiting(p0: Lists, q0: Lists, nonces0: map<Address, nat>, p: Lists, q: Lists, nonces: map<Address, nat>, a: Address) {
    && ItemsOf(p, a) == ItemsOf(p0, a) && (a in q <==> a in q0) && (a in q0 ==> q[a] == q0[a])
    && (a in nonces <==> a in nonces0) && (a in nonces0 ==> nonces[a] == nonces0[a])
  }

  /** The accounts of `seen` have been promoted, the others are as before. */
  ghost predicate Promoted(p0: Lists, q0: Lists, nonces0: map<Address, nat>, p: Lists, q: Lists, nonces: map<Address, nat>,
                           seen: set<Address>, c: Chain, locals: set<Address>, accountQueue: nat) {
    forall a: Address ::
      if a in seen then MovedUp(p0, q0, nonces0, p, q, nonces, a, c, QueueCap(a, locals, accountQueue))
      else Waiting(p0, q0, nonces0, p, q, nonces, a)
  }

  /** Queues whose lists are keyed by nonce. */
  ghost predicate KeyedQueue(q: Lists) {
    ListsOk(q, false) && forall a :: a in q ==> Keyed(q[a].items)
  }

  lemma PromotedMore(p0: Lists, q0: Lists, nonces0: map<Address, nat>, p: Lists, q: Lists, nonces: map<Address, nat>,
                     p': Lists, q': Lists, nonces': map<Address, nat>,
                     seen: set<Address>, a: Address, c: Chain, locals: set<Address>, accountQueue: nat)
    requires Promoted(p0, q0, nonces0, p, q, nonces, seen, c, locals, accountQueue) && KeyedQueue(q0) && KeyedQueue(q)
    requires p' - {a} == p - {a} && q' - {a} == q - {a} && SameNonces(nonces, nonces', a)
    requires MovedUp(p, q, nonces, p', q', nonces', a, c, QueueCap(a, locals, accountQueue))
    ensures Promoted(p0, q0, nonces0, p', q', nonces', seen + {a}, c, locals, accountQueue)
  {
    hide MovedUp, Waiting, QueueCap, KeyedQueue, ItemsOf, SameNonces;
    forall b: Address ensures
      if b in seen + {a} then MovedUp(p0, q0, nonces0, p', q', nonces', b, c, QueueCap(b, locals, accountQueue))
      else Waiting(p0, q0, nonces0, p', q', nonces', b)
    {
      assert if b in seen then MovedUp(p0, q0, nonces0, p, q, nonces, b, c, QueueCap(b, locals, accountQueue))
             else Waiting(p0, q0, nonces0, p, q, nonces, b);
      var cap := QueueCap(b, locals, accountQueue);
      if b != a {
        SameAt(p, p', a, b);
        SameAt(q, q', a, b);
        SameNonceAt(nonces, nonces', a, b);
        NotVisited(p0, q0, nonces0, p, q, nonces, p', q', nonces', b, c, cap);
      } else if a in seen {
        SecondVisit(p0, q0, nonces0, p, q, nonces, p', q', nonces', a, c, cap);
      } else {
        FirstVisit(p0, q0, nonces0, p, q, nonces, p', q', nonces', a, c, cap);
      }
    }
  }

  lemma FirstVisit(p0: Lists, q0: Lists, nonces0: map<Address, nat>, p: Lists, q: Lists, nonces: map<Address, nat>,
                   p': Lists, q': Lists, nonces': map<Address, nat>, a: Address, c: Chain, cap: Option<nat>)
    requires Waiting(p0, q0, nonces0, p, q, nonces, a) && MovedUp(p, q, nonces, p', q', nonces', a, c, cap)
    ensures MovedUp(p0, q0, nonces0, p', q', nonces', a, c, cap)
  {
    hide Promote;
  }

  /** Promoting an account twice is promoting it once. */
  lemma SecondVisit(p0: Lists, q0: Lists, nonces0: map<Address, nat>, p: Lists, q: Lists, nonces: map<Address, nat>,
                    p': Lists, q': Lists, nonces': map<Address, nat>, a: Address, c: Chain, cap: Option<nat>)
    requires MovedUp(p0, q0, nonces0, p, q, nonces, a, c, cap) && KeyedQueue(q0) && KeyedQueue(q)
    requires MovedUp(p, q, nonces, p', q', nonces', a, c, cap)
    ensures MovedUp(p0, q0, nonces0, p', q', nonces', a, c, cap)
  {
    hide Promote, Capped, Sorted, Keyed, NextAfter;
    if a in q {
      assert a in q0;
      AgainFacts(q0[a], q[a], nonces0, a, c, NonceOf(nonces, c.nonce, a), cap);
      NothingNew(ItemsOf(p, a), nonces, a);
    }
  }

  lemma NothingNew(P: Items, nonces: map<Address, nat>, a: Address)
    ensures P + map[] == P && NextAfter(nonces, a, Sorted(map[])) == nonces
  {
  }

  lemma AgainFacts(l0: ListValue, l: ListValue, nonces0: map<Address, nat>, a: Address, c: Chain, next: nat, cap: Option<nat>)
    requires Capped(l0) && !l0.strict && Keyed(l0.items) && Capped(l) && !l.strict
    requires var r := Promote(l0, c.nonce(a), c.balance(a), c.maxGas, NonceOf(nonces0, c.nonce, a), cap);
      l.items == r.kept.items && next == NonceOf(NextAfter(nonces0, a, Sorted(r.ready)), c.nonce, a)
    ensures var s := Promote(l, c.nonce(a), c.balance(a), c.maxGas, next, cap);
      s.ready == map[] && s.kept.items == l.items
  {
    hide Promote, Capped, Sorted, Fits, NextAfter;
    var next0 := NonceOf(nonces0, c.nonce, a);
    PromotionSettles(l0, a, c, next0, cap);
    NextNonce(nonces0, c.nonce, a, Promote(l0, c.nonce(a), c.balance(a), c.maxGas, next0, cap).ready);
    PromoteAgain(l0, l, a, c, next0, next, cap);
  }

  lemma SameAt(lists: Lists, lists': Lists, a: Address, b: Address)
    requires lists' - {a} == lists - {a} && a != b
    ensures (b in lists' <==> b in lists) && (b in lists ==> lists'[b] == lists[b]) && ItemsOf(lists', b) == ItemsOf(lists, b)
  {
    assert b in lists' <==> b in lists' - {a};
    assert b in lists <==> b in lists - {a};
    assert b in lists ==> (lists - {a})[b] == lists[b] && (lists' - {a})[b] == lists'[b];
  }

  lemma NotVisited(p0: Lists, q0: Lists, nonces0: map<Address, nat>, p: Lists, q: Lists, nonces: map<Address, nat>,
                   p': Lists, q': Lists, nonces': map<Address, nat>, b: Address, c: Chain, cap: Option<nat>)
    requires ItemsOf(p', b) == ItemsOf(p, b) && ItemsOf(q', b) == ItemsOf(q, b)
    requires (b in q' <==> b in q) && (b in q ==> q'[b] == q[b])
    requires (b in nonces' <==> b in nonces) && (b in nonces ==> nonces'[b] == nonces[b])
    ensures Waiting(p0, q0, nonces0, p, q, nonces, b) ==> Waiting(p0, q0, nonces0, p', q', nonces', b)
    ensures MovedUp(p0, q0, nonces0, p, q, nonces, b, c, cap) ==> MovedUp(p0, q0, nonces0, p', q', nonces', b, c, cap)
  {
    hide Promote, Sorted, NextAfter, ItemsOf;
  }

  lemma SameNonceAt(nonces: map<Address, nat>, nonces': map<Address, nat>, a: Address, b: Address)
    requires SameNonces(nonces, nonces', a) && a != b
    ensures (b in nonces' <==> b in nonces) && (b in nonces ==> nonces'[b] == nonces[b])
  {
  }

  /** Promotes the given accounts one after the other; an account named twice is promoted once. */
  method PromoteExecutables(pool: TxPool, accounts: seq<Address>, now: nat)
    requires pool.Valid()
    modifies pool`pending, pool`queue, pool`pendingNonces, pool`beats, pool.all, pool.priced
    ensures pool.Valid()
    ensures Promoted(old(pool.pending), old(pool.queue), old(pool.pendingNonces), pool.pending, pool.queue, pool.pendingNonces, Elements(accounts),
                     Chain(pool.stateNonce, pool.stateBalance, pool.maxGas), pool.locals, pool.config.accountQueue)
  {
    hide TxPool.LookupOk, ContentOk, Promoted, Promote, Elements, TxLookup.All, AfterPromotion, Sorted, SameNonces, MovedUp, NextAfter,
      ItemsOf, ListsOk, KeyedQueue;
    ghost var p0, q0, n0 := pool.pending, pool.queue, pool.pendingNonces;
    ghost var c := Chain(pool.stateNonce, pool.stateBalance, pool.maxGas);
    PromotedNone(p0, q0, n0, c, pool.locals, pool.config.accountQueue);
    AllKeyed(p0, q0, pool.all.All());
    assert accounts[..0] == [];
    for i := 0 to |accounts|
      invariant pool.Valid()
      invariant Promoted(p0, q0, n0, pool.pending, pool.queue, pool.pendingNonces, Elements(accounts[..i]), c, pool.locals, pool.config.accountQueue)
    {
      var a := accounts[i];
      ghost var p, q, n := pool.pending, pool.queue, pool.pendingNonces;
      AllKeyed(p, q, pool.all.All());
      if a in pool.queue {
        ghost var r;
        var promoted;
        promoted, r := pool.PromoteAccount(a, now);
        OthersKept(n, a, promoted);
      } else {
        NoncesKept(n, a);
      }
      Visited(p, q, n, pool.pending, pool.queue, pool.pendingNonces, a, c, pool.locals, pool.config.accountQueue);
      PromotedMore(p0, q0, n0, p, q, n, pool.pending, pool.queue, pool.pendingNonces, Elements(accounts[..i]), a, c, pool.locals,
                   pool.config.accountQueue);
      OneMore(accounts, i);
    }
    assert accounts[..|accounts|] == accounts;
  }

  lemma OneMore(accounts: seq<Address>, i: nat)
    requires i < |accounts|
    ensures Elements(accounts[..i + 1]) == Elements(accounts[..i]) + {accounts[i]}
  {
    assert accounts[..i + 1] == accounts[..i] + [accounts[i]];
  }

  lemma AllKeyed(p: Lists, q: Lists, all: ByHash)
    requires ContentOk(p, q, all) && ListsOk(q, false)
    ensures KeyedQueue(q)
  {
    forall a | a in q ensures Keyed(q[a].items) {
      assert AccountOk(a, ItemsOf(p, a), ItemsOf(q, a), all);
    }
  }

  lemma OthersKept(nonces: map<Address, nat>, a: Address, promoted: seq<Tx>)
    ensures SameNonces(nonces, NextAfter(nonces, a, promoted), a)
  {
  }

  lemma PromotedNone(p0: Lists, q0: Lists, nonces: map<Address, nat>, c: Chain, locals: set<Address>, accountQueue: nat)
    ensures Promoted(p0, q0, nonces, p0, q0, nonces, Elements([]), c, locals, accountQueue)
  {
  }

  lemma Visited(p: Lists, q: Lists, nonces: map<Address, nat>, p': Lists, q': Lists, nonces': map<Address, nat>,
                a: Address, c: Chain, locals: set<Address>, accountQueue: nat)
    requires a !in q ==> p' == p && q' == q && nonces' == nonces
    requires a in q ==>
      var r := Promote(q[a], c.nonce(a), c.balance(a), c.maxGas, NonceOf(nonces, c.nonce, a), QueueCap(a, locals, accountQueue));
      ItemsOf(p', a) == ItemsOf(p, a) + r.ready && ItemsOf(q', a) == r.kept.items && nonces' == NextAfter(nonces, a, Sorted(r.ready))
    ensures MovedUp(p, q, nonces, p', q', nonces', a, c, QueueCap(a, locals, accountQueue))
  {
    hide Promote, Sorted;
  }

  // ---------- demoteUnexecutables ----------

  /** The account keeps what is executable, and the rest after the first unpayable one is queued. */
  ghost predicate SentBack(p0: Lists, q0: Lists, p: Lists, q: Lists, a: Address, c: Chain)
    requires a in p0
  {
    var r := Demote(p0[a], c.nonce(a), c.balance(a), c.maxGas);
    ItemsOf(p, a) == r.kept.items && ItemsOf(q, a) == ItemsOf(q0, a) + r.invalid
  }

  ghost predicate Untouched(p0: Lists, q0: Lists, p: Lists, q: Lists, a: Address) {
    (a in p <==> a in p0) && (a in p0 ==> p[a] == p0[a]) && ItemsOf(q, a) == ItemsOf(q0, a)
  }

  /** Accounts outside `rest` have been demoted, the others are as before. */
  ghost predicate Demoted(p0: Lists, q0: Lists, p: Lists, q: Lists, rest: set<Address>, c: Chain) {
    forall a: Address ::
      if a in p0 && a !in rest then SentBack(p0, q0, p, q, a, c) else Untouched(p0, q0, p, q, a)
  }

  lemma DemotedMore(p0: Lists, q0: Lists, p: Lists, q: Lists, p': Lists, q': Lists, rest: set<Address>, a: Address, c: Chain)
    requires Demoted(p0, q0, p, q, rest, c) && a in rest && a in p0
    requires p' - {a} == p - {a} && q' - {a} == q - {a}
    requires var r := Demote(p0[a], c.nonce(a), c.balance(a), c.maxGas);
      ItemsOf(p', a) == r.kept.items && ItemsOf(q', a) == ItemsOf(q, a) + r.invalid
    ensures Demoted(p0, q0, p', q', rest - {a}, c)
  {
    hide Demote, ItemsOf;
    assert Untouched(p0, q0, p, q, a);
    assert SentBack(p0, q0, p', q', a, c);
    hide SentBack, Untouched;
    forall b: Address ensures if b in p0 && b !in rest - {a} then SentBack(p0, q0, p', q', b, c) else Untouched(p0, q0, p', q', b) {
      if b != a {
        assert if b in p0 && b !in rest then SentBack(p0, q0, p, q, b, c) else Untouched(p0, q0, p, q, b);
        OtherStays(p0, q0, p, q, p', q', a, b, c);
      }
    }
  }

  lemma OtherStays(p0: Lists, q0: Lists, p: Lists, q: Lists, p': Lists, q': Lists, a: Address, b: Address, c: Chain)
    requires p' - {a} == p - {a} && q' - {a} == q - {a} && a != b
    ensures b in p0 && SentBack(p0, q0, p, q, b, c) ==> SentBack(p0, q0, p', q', b, c)
    ensures Untouched(p0, q0, p, q, b) ==> Untouched(p0, q0, p', q', b)
  {
    hide Demote;
    ElsewhereSame(q, q', a);
    ElsewhereSame(p, p', a);
    assert b in p' <==> b in p' - {a};
    assert b in p <==> b in p - {a};
    assert b in p ==> (p - {a})[b] == p[b] && (p' - {a})[b] == p'[b];
  }

  lemma DemotedFacts(p0: Lists, q0: Lists, p: Lists, q: Lists, rest: set<Address>, a: Address, c: Chain)
    requires Demoted(p0, q0, p, q, rest, c) && a in rest && a in p0
    ensures a in p && p[a] == p0[a]
  {
    assert Untouched(p0, q0, p, q, a);
  }

  method DemoteUnexecutables(pool: TxPool, now: nat)
    requires pool.Valid()
    modifies pool`pending, pool`queue, pool`beats, pool.all, pool.priced
    ensures pool.Valid()
    ensures Demoted(old(pool.pending), old(pool.queue), pool.pending, pool.queue, {},
                    Chain(pool.stateNonce, pool.stateBalance, pool.maxGas))
  {
    hide TxPool.LookupOk, ContentOk, ListsOk, ItemsOf, Demoted, Demote, TxLookup.All, AfterDemotion;
    ghost var p0, q0 := pool.pending, pool.queue;
    ghost var c := Chain(pool.stateNonce, pool.stateBalance, pool.maxGas);
    var rest := pool.pending.Keys;
    DemotedNone(p0, q0, c);
    while rest != {}
      invariant pool.Valid() && rest <= p0.Keys
      invariant Demoted(p0, q0, pool.pending, pool.queue, rest, c)
      decreases rest
    {
      var a :| a in rest;
      ghost var p, q := pool.pending, pool.queue;
      DemotedFacts(p0, q0, p, q, rest, a, c);
      pool.DemoteAccount(a, now);
      DemotedMore(p0, q0, p, q, pool.pending, pool.queue, rest, a, c);
      rest := rest - {a};
    }
  }

  lemma DemotedNone(p0: Lists, q0: Lists, c: Chain)
    ensures Demoted(p0, q0, p0, q0, p0.Keys, c)
  {
  }

  // ---------- Raising the virtual nonces ----------

  /** The virtual nonce of `a` is the least one that is neither below what it was nor at or below one of `held`. */
  ghost predicate HighestNonce(before: map<Address, nat>, after: map<Address, nat>, fallback: Address -> nat, a: Address, held: set<nat>) {
    var was, now := NonceOf(before, fallback, a), NonceOf(after, fallback, a);
    && now >= was && (forall n :: n in held ==> n < now)
    && (now == was || now - 1 in held)
  }

  /** Every account outside `rest` is past its pending transactions; nothing else has changed. */
  ghost predicate PastPending(p: Lists, before: map<Address, nat>, after: map<Address, nat>, fallback: Address -> nat, rest: set<Address>) {
    forall a: Address ::
      HighestNonce(before, after, fallback, a, if a in rest then {} else ItemsOf(p, a).Keys)
  }

  lemma PastNone(p: Lists, nonces: map<Address, nat>, fallback: Address -> nat)
    ensures PastPending(p, nonces, nonces, fallback, p.Keys)
  {
  }

  lemma PastMore(p: Lists, before: map<Address, nat>, nonces: map<Address, nat>, after: map<Address, nat>, fallback: Address -> nat,
                 rest: set<Address>, a: Address, last: nat)
    requires PastPending(p, before, nonces, fallback, rest) && a in rest && a in p
    requires last in p[a].items && forall n :: n in p[a].items ==> n <= last
    requires SameNonces(nonces, after, a)
    requires var was, now := NonceOf(nonces, fallback, a), NonceOf(after, fallback, a);
      now >= was && now > last && (now == was || now == last + 1)
    ensures PastPending(p, before, after, fallback, rest - {a})
  {
    hide ItemsOf;
    assert ItemsOf(p, a) == p[a].items by { QueueTruncation.InLists(p, a); }
    forall b: Address ensures HighestNonce(before, after, fallback, b, if b in rest - {a} then {} else ItemsOf(p, b).Keys) {
      assert HighestNonce(before, nonces, fallback, b, if b in rest then {} else ItemsOf(p, b).Keys);
      if b != a {
        assert NonceOf(after, fallback, b) == NonceOf(nonces, fallback, b);
      }
    }
  }

  method RaiseNonces(pool: TxPool)
    requires pool.Valid()
    modifies pool`pendingNonces
    ensures pool.Valid() && PastPending(pool.pending, old(pool.pendingNonces), pool.pendingNonces, pool.stateNonce, {})
  {
    hide TxPool.LookupOk, ContentOk, ListsOk, PastPending, SameNonces, TxLookup.All;
    ghost var n0 := pool.pendingNonces;
    PastNone(pool.pending, n0, pool.stateNonce);
    var rest := pool.pending.Keys;
    while rest != {}
      invariant pool.Valid() && rest <= pool.pending.Keys
      invariant PastPending(pool.pending, n0, pool.pendingNonces, pool.stateNonce, rest)
      decreases rest
    {
      var a :| a in rest;
      PendingFacts(pool.pending, pool.queue, pool.all.All(), a);
      var last := LastElement(pool.pending[a].items);
      ghost var was := pool.pendingNonces;
      pool.RaiseNonce(a, last + 1);
      PastMore(pool.pending, n0, was, pool.pendingNonces, pool.stateNonce, rest, a, last);
      rest := rest - {a};
    }
  }

  method LastElement(items: Items) returns (last: nat)
    requires items != map[] && Keyed(items)
    ensures last in items && forall n :: n in items ==> n <= last
  {
    hide Sorted, Keyed;
    var txs := SortedMap.SortByNonce(items);
    LastOfSorted(items);
    last := txs[|txs| - 1].nonce;
  }

  lemma NotEmpty(items: Items)
    requires items != map[]
    ensures |items| > 0
  {
    var n :| n in items;
    assert items.Keys != {};
  }

  lemma PendingFacts(p: Lists, q: Lists, all: ByHash, a: Address)
    requires ContentOk(p, q, all) && ListsOk(p, true) && a in p
    ensures p[a].items != map[] && Keyed(p[a].items)
  {
    assert AccountOk(a, ItemsOf(p, a), ItemsOf(q, a), all);
  }

  // ---------- Runs ----------

  datatype PoolOp =
    | AddOp(tx: Tx, local: bool, valid: bool)
    | RemoveOp(hash: Hash)
    | PromoteOp(accounts: seq<Address>)
    | DemoteOp
    | TruncatePendingOp
    | TruncateQueueOp
    | ResetOp(chain: Chain)
    | BaseFeeOp(fee: nat)

  /** One operation. Only entering a transaction whose old heap entry is left can give a transaction two entries,
      and only that or a local transaction can take the pool over its slot limit. */
  method Step(pool: TxPool, op: PoolOp, now: nat)
    requires pool.Valid() && (op.AddOp? ==> pool.book(op.tx.hash) == op.tx)
    modifies pool, pool.all, pool.priced
    ensures pool.Valid()
    ensures pool.ever <= old(pool.ever) + (if op.AddOp? then {op.tx} else {})
    ensures old(pool.single) && (op.AddOp? ==> op.tx !in old(pool.ever)) ==> pool.single
    ensures old(pool.neverTwice) && (op.AddOp? ==> op.tx !in old(pool.ever)) ==> pool.neverTwice
    ensures pool.neverTwice ==> old(pool.neverTwice)
    ensures old(pool.locals) == {} && (op.AddOp? ==> !op.local) ==>
      pool.locals == {} && (old(pool.single && pool.bounded) ==> pool.bounded)
  {
    hide TxPool.Sound, PoolTruncation.TotalLen, PoolTruncation.Len, PoolTruncation.WaterLine, PoolTruncation.CutAccounts,
      QueueTruncation.CutFrom, QueueTruncation.BeatOrder, Promoted, Demoted;
    match op {
      case AddOp(tx, local, valid) =>
        var r := AddOne(pool, tx, local, valid, now);
      case RemoveOp(hash) =>
        pool.RemoveTx(hash, true, now);
      case PromoteOp(accounts) =>
        PromoteExecutables(pool, accounts, now);
      case DemoteOp =>
        DemoteUnexecutables(pool, now);
      case TruncatePendingOp =>
        ghost var level := PoolTruncation.TruncatePending(pool);
      case TruncateQueueOp =>
        ghost var order, k, m := QueueTruncation.TruncateQueue(pool, now);
      case ResetOp(chain) =>
        pool.ResetState(chain.nonce, chain.balance, chain.maxGas);
      case BaseFeeOp(fee) =>
        pool.ResetBaseFee(fee);
    }
  }

  /** What an offered transaction comes to. */
  ghost predicate Offered(before: Content, after: Content, tx: Tx, valid: bool, r: AddResult) {
    && (r == AlreadyKnown <==> tx.hash in before.all)
    && (r == Invalid <==> tx.hash !in before.all && !valid)
    && (r in {AlreadyKnown, Invalid, Underpriced, PoolOverflow} ==> after == before)
    && (r.Accepted? ==> tx.hash in after.all && after.all[tx.hash] == tx)
  }

  method AddOne(pool: TxPool, tx: Tx, local: bool, valid: bool, now: nat) returns (r: AddResult)
    requires pool.Valid() && pool.book(tx.hash) == tx
    modifies pool`pending, pool`queue, pool`beats, pool`pendingNonces, pool`locals, pool`changesSinceReorg
    modifies pool`untracked, pool`ever, pool`single, pool`neverTwice, pool`bounded, pool.all, pool.priced
    ensures pool.Valid() && pool.ever <= old(pool.ever) + {tx} && Offered(old(pool.Now()), pool.Now(), tx, valid, r)
    ensures !local ==> pool.locals == old(pool.locals)
    ensures tx !in old(pool.ever) ==> pool.single == old(pool.single) && pool.neverTwice == old(pool.neverTwice)
    ensures pool.neverTwice ==> old(pool.neverTwice)
    ensures old(pool.locals) == {} && !local ==> pool.locals == {} && (old(pool.single && pool.bounded) ==> pool.bounded)
  {
    hide ContentOk, ListsOk, Placed, MadeRoom, Entered, TxLookup.All, NoOldEntry, UniqueLive, SomeLive, TxPool.CheaperThanAll, TxPool.CanFree;
    ghost var untried, view, roomy, shortage, force := tx !in pool.ever, pool.View(), pool.HasRoom(tx), pool.Shortage(tx), local || tx.from in pool.locals;
    if untried {
      pool.Untried(tx);
    }
    ghost var room;
    r, room := pool.Add(tx, local, valid, now);
    if r.Accepted? {
      PlacedThere(room.content, pool.Now(), tx, pool.config.priceBump, r);
    }
    if untried && r.Accepted? {
      Unentered(tx, view, room, roomy, shortage, force, r.replaced);
    }
  }

  lemma PlacedThere(before: Content, after: Content, tx: Tx, bump: nat, r: AddResult)
    requires Placed(before, after, tx, bump, r) && r.Accepted?
    ensures tx.hash in after.all && after.all[tx.hash] == tx
  {
  }

  /** Transactions handed in during a run: each for the first time, none as a local one. */
  ghost predicate AllRemote(ops: seq<PoolOp>) {
    forall i :: 0 <= i < |ops| && ops[i].AddOp? ==> !ops[i].local
  }

  ghost predicate AllNew(ops: seq<PoolOp>, ever: set<Tx>) {
    && (forall i :: 0 <= i < |ops| && ops[i].AddOp? ==> ops[i].tx !in ever)
    && (forall i, j :: 0 <= i < j < |ops| && ops[i].AddOp? && ops[j].AddOp? ==> ops[i].tx != ops[j].tx)
  }

  /** Over every run: the lookup is exactly what is pending or queued, and no nonce is in both.
      While no transaction is entered with an old heap entry left, no remote one has two entries, and a run of remote
      transactions stays within the slot limit; handing in every transaction once is enough for that. */
  method Run(pool: TxPool, ops: seq<PoolOp>)
    requires pool.Valid() && forall i :: 0 <= i < |ops| && ops[i].AddOp? ==> pool.book(ops[i].tx.hash) == ops[i].tx
    modifies pool, pool.all, pool.priced
    ensures pool.Valid()
    ensures forall tx: Tx ::
      (tx.hash in pool.all.All() && pool.all.All()[tx.hash] == tx) <==>
        Listed(ItemsOf(pool.pending, tx.from), tx) || Listed(ItemsOf(pool.queue, tx.from), tx)
    ensures forall a: Address :: ItemsOf(pool.pending, a).Keys !! ItemsOf(pool.queue, a).Keys
    ensures pool.neverTwice ==> UniqueLive(pool.priced.Entries(), pool.all.remotes)
    ensures AllRemote(ops) && old(pool.locals == {} && pool.bounded) && pool.neverTwice ==> pool.all.slots <= pool.Limit()
    ensures AllNew(ops, old(pool.ever)) && old(pool.neverTwice) ==> pool.neverTwice
  {
    hide TxPool.Sound, Listed, ItemsOf, ContentOk, ListsOk, TxPool.LookupOk, TxLookup.All, UniqueLive, AllRemote;
    ghost var orderly, ever0 := AllRemote(ops) && pool.locals == {} && pool.bounded, pool.ever;
    for i := 0 to |ops|
      invariant pool.Valid()
      invariant orderly ==> pool.locals == {} && (pool.neverTwice ==> pool.bounded)
      invariant forall tx :: tx in pool.ever ==> tx in ever0 || exists j :: 0 <= j < i && ops[j].AddOp? && ops[j].tx == tx
      invariant AllNew(ops, ever0) && old(pool.neverTwice) ==> pool.neverTwice
    {
      assert orderly && ops[i].AddOp? ==> !ops[i].local by { RemoteAt(ops, i); }
      pool.LedgerFacts();
      Step(pool, ops[i], i);
    }
    pool.ContentFacts();
    pool.LedgerFacts();
  }

  lemma RemoteAt(ops: seq<PoolOp>, i: nat)
    requires i < |ops|
    ensures AllRemote(ops) && ops[i].AddOp? ==> !ops[i].local
  {
  }

  // ---------- runReorg ----------

  /** What `reset` finds: the new chain state, and the transactions of abandoned blocks with the valid ones among them. */
  datatype Renewal = Renewal(chain: Chain, reinject: seq<Tx>, valid: set<Tx>)

  /** A reset; `found` is missing when the blocks or the state it needs cannot be read. */
  datatype Request = Request(found: Option<Renewal>, baseFee: nat)

  /** Every pending transaction is current and payable. */
  ghost predicate Executable(p: Lists, c: Chain) {
    forall a, n :: a in p && n in p[a].items ==> c.nonce(a) <= n && Fits(p[a].items[n], c.balance(a), c.maxGas)
  }

  /** Every transaction was offered in turn, with these results and contents in between. */
  ghost predicate Offers(txs: seq<Tx>, valid: set<Tx>, results: seq<AddResult>, contents: seq<Content>) {
    && |results| <= |txs| && |contents| == |results| + 1
    && forall i :: 0 <= i < |results| ==> Offered(contents[i], contents[i + 1], txs[i], txs[i] in valid, results[i])
  }

  lemma OffersMore(txs: seq<Tx>, valid: set<Tx>, results: seq<AddResult>, contents: seq<Content>, r: AddResult, next: Content)
    requires Offers(txs, valid, results, contents) && |results| < |txs|
    requires Offered(contents[|results|], next, txs[|results|], txs[|results|] in valid, r)
    ensures Offers(txs, valid, results + [r], contents + [next])
  {
    hide Offered;
    var more, after := results + [r], contents + [next];
    forall i | 0 <= i < |more| ensures Offered(after[i], after[i + 1], txs[i], txs[i] in valid, more[i]) {
      assert i < |results| ==> more[i] == results[i] && after[i] == contents[i] && after[i + 1] == contents[i + 1];
    }
  }

  /** `reset`: the new chain state is taken over and every transaction of an abandoned block is offered again. */
  method Reset(pool: TxPool, found: Option<Renewal>, now: nat) returns (ghost results: seq<AddResult>, ghost contents: seq<Content>)
    requires pool.Valid() && (found.Some? ==> forall tx :: tx in found.value.reinject ==> pool.book(tx.hash) == tx)
    modifies pool, pool.all, pool.priced
    ensures pool.Valid() && pool.locals == old(pool.locals)
    ensures Chain(pool.stateNonce, pool.stateBalance, pool.maxGas) ==
      if found.Some? then found.value.chain else old(Chain(pool.stateNonce, pool.stateBalance, pool.maxGas))
    ensures found == None ==> pool.Now() == old(pool.Now()) && pool.pendingNonces == old(pool.pendingNonces) && pool.beats == old(pool.beats)
    ensures found.Some? ==>
      && Offers(found.value.reinject, found.value.valid, results, contents) && |results| == |found.value.reinject|
      && contents[0] == old(pool.Now()) && contents[|results|] == pool.Now()
  {
    hide TxPool.Sound, Offered, TxLookup.All;
    results, contents := [], [pool.Now()];
    if found == None {
      return;
    }
    var Renewal(chain, reinject, valid) := found.value;
    pool.ResetState(chain.nonce, chain.balance, chain.maxGas);
    for i := 0 to |reinject|
      invariant pool.Valid() && pool.locals == old(pool.locals) && Chain(pool.stateNonce, pool.stateBalance, pool.maxGas) == chain
      invariant |results| == i && Offers(reinject, valid, results, contents)
      invariant contents[0] == old(pool.Now()) && contents[i] == pool.Now()
    {
      var r := AddOne(pool, reinject[i], false, reinject[i] in valid, now);
      OffersMore(reinject, valid, results, contents, r, pool.Now());
      results, contents := results + [r], contents + [pool.Now()];
    }
  }

  /** The lists, virtual nonces and heartbeats at one moment of a run. */
  datatype Stage = Stage(pending: Lists, queue: Lists, nonces: map<Address, nat>, beats: map<Address, nat>)

  ghost function StageOf(pool: TxPool): Stage
    reads pool
  {
    Stage(pool.pending, pool.queue, pool.pendingNonces, pool.beats)
  }

  /** What the end of a run cut: the level of the pending lists, the queued accounts by heartbeat, from which of them on
      and what that one kept, and the virtual nonces before they were raised. */
  datatype Cuts = Cuts(level: nat, order: seq<Address>, k: nat, m: nat, nonces: map<Address, nat>)

  /** From one stage of runReorg to the next: promotion of the accounts, demotion after a reset, the two cuts, the nonces. */
  ghost predicate Pipeline(start: Stage, promoted: Stage, demoted: Stage, cuts: Cuts, end: Stage, accounts: set<Address>, demoting: bool, c: Chain,
                           locals: set<Address>, config: Config) {
    && Promoted(start.pending, start.queue, start.nonces, promoted.pending, promoted.queue, promoted.nonces, accounts, c, locals, config.accountQueue)
    && (if demoting then Demoted(promoted.pending, promoted.queue, demoted.pending, demoted.queue, {}, c) && demoted.nonces == promoted.nonces
        else demoted == promoted)
    && CutDown(demoted, end, cuts, c, locals, config)
  }

  ghost predicate CutDown(before: Stage, after: Stage, cuts: Cuts, c: Chain, locals: set<Address>, config: Config) {
    && config.accountSlots <= cuts.level && after.pending == PoolTruncation.WaterLine(before.pending, locals, cuts.level)
    && QueueTruncation.BeatOrder(cuts.order, before.queue.Keys - locals, before.beats)
    && QueueTruncation.CutFrom(before.queue, after.queue, cuts.order, cuts.k, cuts.m)
    && PoolTruncation.Pulled(before.pending, after.pending, before.nonces, cuts.nonces, c.nonce)
    && PastPending(after.pending, cuts.nonces, after.nonces, c.nonce, {})
  }

  /** The pool half of runReorg. Afterwards both limits hold, but for what local or small accounts keep; virtual nonces are
      past what is pending; and after a reset every pending transaction can be executed and no remote one has two heap entries. */
  method RunReorg(pool: TxPool, reset: Option<Request>, syncing: bool, dirty: seq<Address>, now: nat)
    returns (ghost start: Stage, ghost promoted: Stage, ghost demoted: Stage, ghost cuts: Cuts,
             ghost results: seq<AddResult>, ghost contents: seq<Content>)
    requires pool.Valid()
    requires reset.Some? && reset.value.found.Some? ==> forall tx :: tx in reset.value.found.value.reinject ==> pool.book(tx.hash) == tx
    modifies pool, pool.all, pool.priced
    ensures pool.Valid() && pool.changesSinceReorg == 0
    ensures PoolTruncation.TotalLen(pool.pending) <= pool.config.globalSlots
            || forall a :: a in pool.pending && a !in pool.locals ==> PoolTruncation.Len(pool.pending, a) <= pool.config.accountSlots
    ensures PoolTruncation.TotalLen(pool.queue) <= pool.config.globalQueue || pool.queue.Keys <= pool.locals
    ensures Chain(pool.stateNonce, pool.stateBalance, pool.maxGas) ==
      if reset.Some? && !syncing && reset.value.found.Some? then reset.value.found.value.chain
      else old(Chain(pool.stateNonce, pool.stateBalance, pool.maxGas))
    ensures if reset == None || syncing || reset.value.found == None then start == old(StageOf(pool))
            else
              && Offers(reset.value.found.value.reinject, reset.value.found.value.valid, results, contents)
              && |results| == |reset.value.found.value.reinject| && contents[0] == old(pool.Now())
              && contents[|results|].pending == start.pending && contents[|results|].queue == start.queue
    ensures Pipeline(start, promoted, demoted, cuts, StageOf(pool),
                     if reset == None then Elements(dirty) else if syncing then {} else start.queue.Keys, reset.Some?,
                     Chain(pool.stateNonce, pool.stateBalance, pool.maxGas), pool.locals, pool.config)
    ensures forall a, n :: a in pool.pending && n in pool.pending[a].items ==> n < NonceOf(pool.pendingNonces, pool.stateNonce, a)
    ensures reset.Some? ==>
      && Executable(pool.pending, Chain(pool.stateNonce, pool.stateBalance, pool.maxGas))
      && UniqueLive(pool.priced.Entries(), pool.all.remotes)
  {
    hide TxPool.Sound, Promoted, Demoted, PoolTruncation.TotalLen, PoolTruncation.Len, CutDown, Elements, Executable, UniqueLive, TracksOnce,
      TxPool.LookupOk, Offers, TxLookup.All;
    var accounts := if reset == None then dirty else [];
    assert Elements<Address>([]) == {} by { NoAccounts(); }
    results, contents := [], [];
    if reset.Some? && !syncing {
      results, contents := Reset(pool, reset.value.found, now);
      accounts := SortedQueue(pool);
    }
    start := StageOf(pool);
    PromoteExecutables(pool, accounts, now);
    promoted := StageOf(pool);
    ghost var c := Chain(pool.stateNonce, pool.stateBalance, pool.maxGas);
    if reset.Some? {
      SoundFacts(pool);
      DemoteUnexecutables(pool, now);
      SoundFacts(pool);
      DemotedExecutable(promoted.pending, promoted.queue, pool.pending, pool.queue, c);
      pool.ResetBaseFee(reset.value.baseFee);
    }
    demoted := StageOf(pool);
    cuts := CutBack(pool, now);
    pool.LedgerFacts();
  }

  lemma NoAccounts()
    ensures Elements<Address>([]) == {}
  {
  }

  /** The end of runReorg: both truncations, the virtual nonces, the counter. */
  method CutBack(pool: TxPool, now: nat) returns (ghost cuts: Cuts)
    requires pool.Valid()
    modifies pool`pending, pool`queue, pool`beats, pool`pendingNonces, pool`changesSinceReorg, pool.all, pool.priced
    ensures pool.Valid() && pool.changesSinceReorg == 0
    ensures PoolTruncation.TotalLen(pool.pending) <= pool.config.globalSlots
            || forall a :: a in pool.pending && a !in pool.locals ==> PoolTruncation.Len(pool.pending, a) <= pool.config.accountSlots
    ensures PoolTruncation.TotalLen(pool.queue) <= pool.config.globalQueue || pool.queue.Keys <= pool.locals
    ensures CutDown(old(StageOf(pool)), StageOf(pool), cuts, Chain(pool.stateNonce, pool.stateBalance, pool.maxGas), pool.locals, pool.config)
    ensures forall a, n :: a in pool.pending && n in pool.pending[a].items ==> n < NonceOf(pool.pendingNonces, pool.stateNonce, a)
    ensures var c := Chain(pool.stateNonce, pool.stateBalance, pool.maxGas);
      Executable(old(pool.pending), c) ==> Executable(pool.pending, c)
  {
    hide TxPool.Sound, PoolTruncation.TotalLen, PoolTruncation.Len, PoolTruncation.WaterLine, PoolTruncation.CutAccounts,
      QueueTruncation.CutFrom, QueueTruncation.BeatOrder, PoolTruncation.Pulled, Executable, PastPending;
    ghost var p, c := pool.pending, Chain(pool.stateNonce, pool.stateBalance, pool.maxGas);
    ghost var level := PoolTruncation.TruncatePending(pool);
    if Executable(p, c) {
      CutExecutable(p, pool.locals, level, c);
    }
    ghost var order, k, m := QueueTruncation.TruncateQueue(pool, now);
    cuts := Cuts(level, order, k, m, pool.pendingNonces);
    RaiseNonces(pool);
    PastFacts(pool.pending, cuts.nonces, pool.pendingNonces, pool.stateNonce);
    pool.ResetCounter();
  }

  lemma SoundFacts(pool: TxPool)
    requires pool.Valid()
    ensures ListsOk(pool.pending, true)
  {
  }

  lemma PastFacts(p: Lists, before: map<Address, nat>, after: map<Address, nat>, fallback: Address -> nat)
    requires PastPending(p, before, after, fallback, {})
    ensures forall a, n :: a in p && n in p[a].items ==> n < NonceOf(after, fallback, a)
  {
    forall a, n | a in p && n in p[a].items ensures n < NonceOf(after, fallback, a) {
      assert HighestNonce(before, after, fallback, a, ItemsOf(p, a).Keys);
    }
  }

  lemma DemotedExecutable(p0: Lists, q0: Lists, p: Lists, q: Lists, c: Chain)
    requires Demoted(p0, q0, p, q, {}, c) && ListsOk(p0, true) && ListsOk(p, true)
    ensures Executable(p, c)
  {
    hide Demote, Fits, Capped;
    forall a, n | a in p && n in p[a].items ensures c.nonce(a) <= n && Fits(p[a].items[n], c.balance(a), c.maxGas) {
      WasPending(p0, q0, p, q, a, c);
      assert SentBack(p0, q0, p, q, a, c);
      KeptFits(p0[a], c.nonce(a), c.balance(a), c.maxGas);
    }
  }

  lemma WasPending(p0: Lists, q0: Lists, p: Lists, q: Lists, a: Address, c: Chain)
    requires Demoted(p0, q0, p, q, {}, c)
    ensures a in p ==> a in p0
  {
    hide SentBack;
    if a !in p0 {
      assert Untouched(p0, q0, p, q, a);
    }
  }

  lemma KeptFits(l: ListValue, nonce: nat, balance: nat, maxGas: nat)
    requires Capped(l)
    ensures var kept := Demote(l, nonce, balance, maxGas).kept.items;
      forall n :: n in kept ==> nonce <= n && Fits(kept[n], balance, maxGas)
  {
    hide Unpayable, Filtered, Invalidated, Fits;
    ForwardParts(l, nonce);
    FilterPartition(l.(items := AtLeast(l.items, nonce)), balance, maxGas);
  }

  lemma CutExecutable(p: Lists, locals: set<Address>, level: nat, c: Chain)
    requires Executable(p, c)
    ensures Executable(PoolTruncation.WaterLine(p, locals, level), c)
  {
  }

  /** Ranging over the accounts of the queue. */
  method SortedQueue(pool: TxPool) returns (accounts: seq<Address>)
    ensures Elements(accounts) == pool.queue.Keys
  {
    accounts := QueueTruncation.SortByBeat(pool.queue.Keys, map[]);
  }
}
