/** What the transaction pool keeps: the pending and queued lists of every account against the lookup. */
module PoolContent {
  import opened Basics
  import opened Transactions
  import opened Lookup
  import opened TxLists

  type Lists = map<Address, ListValue>

  function ItemsOf(lists: Lists, a: Address): Items {
    if a in lists then lists[a].items else map[]
  }

  ghost predicate Owned(a: Address, items: Items) {
    forall n :: n in items ==> items[n].nonce == n && items[n].from == a
  }

  predicate Listed(items: Items, tx: Tx) {
    tx.nonce in items && items[tx.nonce] == tx
  }

  ghost predicate Known(items: Items, all: ByHash) {
    forall n :: n in items ==> items[n].hash in all && all[items[n].hash] == items[n]
  }

  /** The lookup holds exactly what account `a` has pending or queued, and the two share no nonce. */
  ghost predicate AccountOk(a: Address, pending: Items, queued: Items, all: ByHash) {
    && Owned(a, pending) && Owned(a, queued)
    && pending.Keys !! queued.Keys
    && Known(pending, all) && Known(queued, all)
    && (forall h :: h in all && all[h].from == a ==> Listed(pending, all[h]) || Listed(queued, all[h]))
  }

  ghost predicate ContentOk(pending: Lists, queue: Lists, all: ByHash) {
    forall a: Address :: AccountOk(a, ItemsOf(pending, a), ItemsOf(queue, a), all)
  }

  /** No list is kept empty, and caps bound what is stored. */
  ghost predicate ListsOk(lists: Lists, strict: bool) {
    forall a :: a in lists ==> lists[a].strict == strict && lists[a].items != map[] && Capped(lists[a])
  }

  ghost predicate SameElsewhere(all: ByHash, all': ByHash, a: Address) {
    && (forall h :: h in all && all[h].from != a ==> h in all' && all'[h] == all[h])
    && (forall h :: h in all' && all'[h].from != a ==> h in all && all[h] == all'[h])
  }

  function HashesOf(items: Items): set<Hash> {
    set n | n in items :: items[n].hash
  }

  /** A change confined to one account needs checking on that account alone. */
  lemma OneAccount(p: Lists, q: Lists, all: ByHash, p': Lists, q': Lists, all': ByHash, a: Address)
    requires ContentOk(p, q, all)
    requires forall b: Address :: b != a ==> ItemsOf(p', b) == ItemsOf(p, b) && ItemsOf(q', b) == ItemsOf(q, b)
    requires SameElsewhere(all, all', a)
    requires AccountOk(a, ItemsOf(p', a), ItemsOf(q', a), all')
    ensures ContentOk(p', q', all')
  {
    forall b: Address ensures AccountOk(b, ItemsOf(p', b), ItemsOf(q', b), all') {
      assert AccountOk(b, ItemsOf(p, b), ItemsOf(q, b), all);
      if b != a {
        OtherAccount(b, ItemsOf(p, b), ItemsOf(q, b), all, all', a);
      }
    }
  }

  lemma OtherAccount(b: Address, P: Items, Q: Items, all: ByHash, all': ByHash, a: Address)
    requires AccountOk(b, P, Q, all) && SameElsewhere(all, all', a) && a != b
    ensures AccountOk(b, P, Q, all')
  {
  }

  /** The lookup holds exactly the listed transactions, and each of them is listed once. */
  lemma LookupExact(p: Lists, q: Lists, all: ByHash, tx: Tx)
    requires ContentOk(p, q, all) && Hashed(all)
    ensures (tx.hash in all && all[tx.hash] == tx) <==> Listed(ItemsOf(p, tx.from), tx) || Listed(ItemsOf(q, tx.from), tx)
    ensures !(tx.nonce in ItemsOf(p, tx.from) && tx.nonce in ItemsOf(q, tx.from))
  {
    assert AccountOk(tx.from, ItemsOf(p, tx.from), ItemsOf(q, tx.from), all);
  }

  lemma NoncesApart(p: Lists, q: Lists, all: ByHash)
    requires ContentOk(p, q, all)
    ensures forall a: Address :: ItemsOf(p, a).Keys !! ItemsOf(q, a).Keys
  {
    forall a: Address ensures ItemsOf(p, a).Keys !! ItemsOf(q, a).Keys {
      assert AccountOk(a, ItemsOf(p, a), ItemsOf(q, a), all);
    }
  }

  /** A current transaction joins the queue, taking over the place of an older one with its nonce. */
  lemma AccountEnqueue(a: Address, P: Items, Q: Items, all: ByHash, tx: Tx)
    requires AccountOk(a, P, Q, all) && Hashed(all)
    requires tx.from == a && tx.nonce !in P && tx.hash !in all
    ensures var rest := if tx.nonce in Q then all - {Q[tx.nonce].hash} else all;
      AccountOk(a, P, Q[tx.nonce := tx], rest[tx.hash := tx]) && SameElsewhere(all, rest[tx.hash := tx], a)
  {
  }

  lemma AccountReplace(a: Address, P: Items, Q: Items, all: ByHash, tx: Tx)
    requires AccountOk(a, P, Q, all) && Hashed(all)
    requires tx.from == a && tx.nonce in P && tx.hash !in all
    ensures var all' := (all - {P[tx.nonce].hash})[tx.hash := tx];
      AccountOk(a, P[tx.nonce := tx], Q, all') && SameElsewhere(all, all', a)
  {
  }

  ghost predicate Within(d: Items, items: Items) {
    forall n :: n in d ==> n in items && d[n] == items[n]
  }

  lemma HashesUnique(a: Address, P: Items, Q: Items, all: ByHash, d: Items)
    requires AccountOk(a, P, Q, all) && (Within(d, P) || Within(d, Q))
    ensures forall n :: n in P && P[n].hash in HashesOf(d) ==> n in d && d[n] == P[n]
    ensures forall n :: n in Q && Q[n].hash in HashesOf(d) ==> n in d && d[n] == Q[n]
    ensures forall h :: h in HashesOf(d) ==> h in all && all[h].from == a
  {
    assert forall h :: h in HashesOf(d) ==> exists m :: m in d && d[m].hash == h;
  }

  /** Dropping queued entries and their hashes from the lookup. */
  lemma AccountDropQueued(a: Address, P: Items, Q: Items, all: ByHash, d: Items)
    requires AccountOk(a, P, Q, all) && Hashed(all) && Within(d, Q)
    ensures AccountOk(a, P, Q - d.Keys, all - HashesOf(d)) && SameElsewhere(all, all - HashesOf(d), a)
  {
    HashesUnique(a, P, Q, all, d);
    assert forall n :: n in d ==> d[n].hash in HashesOf(d);
    hide HashesOf;
  }

  /** Dropping pending entries and their hashes from the lookup. */
  lemma AccountDropPending(a: Address, P: Items, Q: Items, all: ByHash, d: Items)
    requires AccountOk(a, P, Q, all) && Hashed(all) && Within(d, P)
    ensures AccountOk(a, P - d.Keys, Q, all - HashesOf(d)) && SameElsewhere(all, all - HashesOf(d), a)
  {
    HashesUnique(a, P, Q, all, d);
    assert forall n :: n in d ==> d[n].hash in HashesOf(d);
    hide HashesOf;
  }

  /** Moving entries between the two lists leaves the lookup exact. */
  lemma AccountPend(a: Address, P: Items, Q: Items, all: ByHash, d: Items)
    requires AccountOk(a, P, Q, all) && Within(d, Q)
    ensures AccountOk(a, P + d, Q - d.Keys, all)
  {
  }

  lemma AccountSendBack(a: Address, P: Items, Q: Items, all: ByHash, d: Items)
    requires AccountOk(a, P, Q, all) && Within(d, P)
    ensures AccountOk(a, P - d.Keys, Q + d, all)
  {
  }

  // ---------- Storing one account's list ----------

  /** Stores a list, dropping the account when the list is empty. */
  function Store(lists: Lists, a: Address, l: ListValue): (r: Lists)
    ensures ItemsOf(r, a) == l.items
    ensures r - {a} == lists - {a}
  {
    if l.items == map[] then lists - {a} else lists[a := l]
  }

  lemma StoreKeeps(lists: Lists, strict: bool, a: Address, l: ListValue)
    requires ListsOk(lists, strict) && l.strict == strict && Capped(l)
    ensures ListsOk(Store(lists, a, l), strict)
  {
  }

  lemma ElsewhereSame(lists: Lists, lists': Lists, a: Address)
    requires lists' - {a} == lists - {a}
    ensures forall b: Address :: b != a ==> ItemsOf(lists', b) == ItemsOf(lists, b)
  {
    forall b: Address | b != a ensures ItemsOf(lists', b) == ItemsOf(lists, b) {
      assert b in lists' <==> b in lists' - {a};
      assert b in lists <==> b in lists - {a};
    }
  }

  lemma AddedKeepsCaps(l: ListValue, tx: Tx)
    requires Capped(l)
    ensures Capped(Added(l, tx))
  {
  }

  lemma FewerKeepsCaps(l: ListValue, items: Items)
    requires Capped(l) && Within(items, l.items)
    ensures Capped(l.(items := items))
  {
  }

  /** `removeTx` finds the list of a known transaction by nonce alone. */
  lemma NonceFindsIt(a: Address, P: Items, Q: Items, all: ByHash, tx: Tx)
    requires AccountOk(a, P, Q, all) && tx.hash in all && all[tx.hash] == tx && tx.from == a
    ensures tx.nonce in P <==> Listed(P, tx)
    ensures tx.nonce !in P ==> Listed(Q, tx)
  {
  }

  /** Removing a pending transaction and pushing what follows it back to the queue. */
  lemma AccountUnpend(a: Address, P: Items, Q: Items, all: ByHash, tx: Tx)
    requires AccountOk(a, P, Q, all) && Hashed(all) && Listed(P, tx)
    ensures AccountOk(a, Below(P, tx.nonce), Q + AtLeast(P, tx.nonce + 1), all - {tx.hash})
    ensures SameElsewhere(all, all - {tx.hash}, a)
  {
    hide AccountOk, SameElsewhere, Hashed;
    var d: Items := map[tx.nonce := tx];
    AccountDropPending(a, P, Q, all, d);
    assert HashesOf(d) == {tx.hash};
    var up := AtLeast(P, tx.nonce + 1);
    AccountSendBack(a, P - d.Keys, Q, all - {tx.hash}, up);
    assert P - d.Keys - up.Keys == Below(P, tx.nonce);
  }

  lemma AccountUnqueue(a: Address, P: Items, Q: Items, all: ByHash, tx: Tx)
    requires AccountOk(a, P, Q, all) && Hashed(all) && Listed(Q, tx)
    ensures AccountOk(a, P, Q - {tx.nonce}, all - {tx.hash})
    ensures SameElsewhere(all, all - {tx.hash}, a)
  {
    hide AccountOk, SameElsewhere, Hashed;
    var d: Items := map[tx.nonce := tx];
    AccountDropQueued(a, P, Q, all, d);
    assert HashesOf(d) == {tx.hash} && d.Keys == {tx.nonce};
  }

  // ---------- Promotion and demotion of one account ----------

  /** How the queue of an account splits when its executable transactions are promoted. */
  datatype Promotion = Promotion(stale: Items, unpayable: Items, ready: Items, over: Items, kept: ListValue)

  function Promote(l: ListValue, nonce: nat, balance: nat, maxGas: nat, pendingNonce: nat, cap: Option<nat>): Promotion {
    var current := l.(items := AtLeast(l.items, nonce));
    var payable := Filtered(current, balance, maxGas);
    var ready := ReadyRun(payable.items, pendingNonce);
    var left := payable.items - ready.Keys;
    var kept := if cap.Some? then Lowest(left, cap.value) else left;
    Promotion(Below(l.items, nonce), Unpayable(current, balance, maxGas), ready, left - kept.Keys, payable.(items := kept))
  }

  /** The five parts of a promotion are disjoint and make up the old queue. */
  ghost predicate Splits(items: Items, r: Promotion) {
    && Within(r.stale, items) && Within(r.unpayable, items) && Within(r.ready, items)
    && Within(r.over, items) && Within(r.kept.items, items)
    && r.stale.Keys !! r.unpayable.Keys !! r.ready.Keys !! r.over.Keys !! r.kept.items.Keys
    && items.Keys == r.stale.Keys + r.unpayable.Keys + r.ready.Keys + r.over.Keys + r.kept.items.Keys
  }

  /** Every queued transaction is stale, unpayable, promoted, over the limit or kept, and only one of these. */
  lemma PromotionSplits(l: ListValue, nonce: nat, balance: nat, maxGas: nat, pendingNonce: nat, cap: Option<nat>)
    requires Capped(l) && !l.strict
    ensures var r := Promote(l, nonce, balance, maxGas, pendingNonce, cap);
            && Splits(l.items, r)
            && Capped(r.kept) && !r.kept.strict
  {
    hide Capped, AtLeast, Below, ReadyRun, Lowest, Unpayable, Filtered, TwoParts, Splits;
    var r := Promote(l, nonce, balance, maxGas, pendingNonce, cap);
    var current := l.(items := AtLeast(l.items, nonce));
    ForwardParts(l, nonce);
    FilterParts(current, balance, maxGas);
    var payable := Filtered(current, balance, maxGas);
    ReadyParts(payable.items, pendingNonce);
    var left := payable.items - r.ready.Keys;
    CapParts(payable, left, r.ready, cap);
    FiveParts(l.items, r, current.items, payable.items, left);
  }

  ghost predicate TwoParts(items: Items, a: Items, b: Items) {
    Within(a, items) && Within(b, items) && a.Keys !! b.Keys && items.Keys == a.Keys + b.Keys
  }

  lemma ForwardParts(l: ListValue, nonce: nat)
    requires Capped(l)
    ensures TwoParts(l.items, Below(l.items, nonce), AtLeast(l.items, nonce))
    ensures Capped(l.(items := AtLeast(l.items, nonce)))
  {
  }

  lemma FilterParts(l: ListValue, balance: nat, maxGas: nat)
    requires Capped(l) && !l.strict
    ensures TwoParts(l.items, Unpayable(l, balance, maxGas), Filtered(l, balance, maxGas).items)
    ensures Capped(Filtered(l, balance, maxGas)) && !Filtered(l, balance, maxGas).strict
  {
    FilterPartition(l, balance, maxGas);
  }

  lemma ReadyParts(items: Items, start: nat)
    ensures TwoParts(items, ReadyRun(items, start), items - ReadyRun(items, start).Keys)
  {
  }

  lemma CapParts(l: ListValue, left: Items, ready: Items, cap: Option<nat>)
    requires Capped(l) && left == l.items - ready.Keys
    ensures var kept := if cap.Some? then Lowest(left, cap.value) else left;
      TwoParts(left, left - kept.Keys, kept) && Capped(l.(items := kept))
  {
  }

  lemma FiveParts(items: Items, r: Promotion, current: Items, payable: Items, left: Items)
    requires TwoParts(items, r.stale, current) && TwoParts(current, r.unpayable, payable)
    requires TwoParts(payable, r.ready, left) && TwoParts(left, r.over, r.kept.items)
    ensures Splits(items, r)
  {
  }

  lemma Transitive(all: ByHash, all': ByHash, all'': ByHash, a: Address)
    requires SameElsewhere(all, all', a) && SameElsewhere(all', all'', a)
    ensures SameElsewhere(all, all'', a)
  {
  }

  lemma StillHashed(all: ByHash, gone: set<Hash>)
    requires Hashed(all)
    ensures Hashed(all - gone)
  {
  }

  function AfterPromotion(all: ByHash, r: Promotion): ByHash {
    all - HashesOf(r.stale) - HashesOf(r.unpayable) - HashesOf(r.over)
  }

  /** What promotion does to one account: `ready` moves to pending, the rest of the losses leave the lookup. */
  lemma AccountPromote(a: Address, P: Items, Q: Items, all: ByHash, r: Promotion)
    requires AccountOk(a, P, Q, all) && Hashed(all) && Splits(Q, r)
    ensures var all' := AfterPromotion(all, r);
      AccountOk(a, P + r.ready, r.kept.items, all') && SameElsewhere(all, all', a)
  {
    hide AccountOk, SameElsewhere, Hashed, HashesOf, Within, Splits;
    var all1 := all - HashesOf(r.stale);
    var all2 := all1 - HashesOf(r.unpayable);
    var all3 := all2 - HashesOf(r.over);
    var Q1 := Q - r.stale.Keys;
    var Q2 := Q1 - r.unpayable.Keys;
    var Q3 := Q2 - r.over.Keys;
    PromoteStages(Q, r);
    AccountDropQueued(a, P, Q, all, r.stale);
    StillHashed(all, HashesOf(r.stale));
    AccountDropQueued(a, P, Q1, all1, r.unpayable);
    StillHashed(all1, HashesOf(r.unpayable));
    AccountDropQueued(a, P, Q2, all2, r.over);
    AccountPend(a, P, Q3, all3, r.ready);
    Transitive(all, all1, all2, a);
    Transitive(all, all2, all3, a);
  }

  lemma PromoteStages(Q: Items, r: Promotion)
    requires Splits(Q, r)
    ensures var Q1 := Q - r.stale.Keys;
            var Q2 := Q1 - r.unpayable.Keys;
            var Q3 := Q2 - r.over.Keys;
            && Within(r.stale, Q) && Within(r.unpayable, Q1) && Within(r.over, Q2) && Within(r.ready, Q3)
            && Q3 - r.ready.Keys == r.kept.items
  {
  }

  /** How the pending list of an account splits when its unexecutable transactions are demoted. */
  datatype Demotion = Demotion(stale: Items, unpayable: Items, invalid: Items, kept: ListValue)

  function Demote(l: ListValue, nonce: nat, balance: nat, maxGas: nat): Demotion {
    var current := l.(items := AtLeast(l.items, nonce));
    Demotion(Below(l.items, nonce), Unpayable(current, balance, maxGas), Invalidated(current, balance, maxGas),
             Filtered(current, balance, maxGas))
  }

  function AfterDemotion(all: ByHash, r: Demotion): ByHash {
    all - HashesOf(r.stale) - HashesOf(r.unpayable)
  }

  ghost predicate DemotionSplit(items: Items, r: Demotion) {
    && Within(r.stale, items) && Within(r.unpayable, items) && Within(r.invalid, items) && Within(r.kept.items, items)
    && r.stale.Keys !! r.unpayable.Keys !! r.invalid.Keys !! r.kept.items.Keys
    && items.Keys == r.stale.Keys + r.unpayable.Keys + r.invalid.Keys + r.kept.items.Keys
  }

  /** Every pending transaction is stale, unpayable, sent back or kept; a gap-free list stays gap-free. */
  lemma DemotionSplits(l: ListValue, nonce: nat, balance: nat, maxGas: nat)
    requires Capped(l) && l.strict
    ensures var r := Demote(l, nonce, balance, maxGas);
            && DemotionSplit(l.items, r)
            && Capped(r.kept) && r.kept.strict
            && (GapFree(l.items) ==> GapFree(r.kept.items))
  {
    hide Fits, Min, Unpayable, Invalidated, Filtered, Capped;
    var current := l.(items := AtLeast(l.items, nonce));
    ForwardParts(l, nonce);
    FilterPartition(current, balance, maxGas);
    FilterCutsStrict(current, balance, maxGas);
    StillStrict(current, balance, maxGas);
  }

  lemma StillStrict(l: ListValue, balance: nat, maxGas: nat)
    ensures Filtered(l, balance, maxGas).strict == l.strict
  {
  }

  lemma AccountDemote(a: Address, P: Items, Q: Items, all: ByHash, r: Demotion)
    requires AccountOk(a, P, Q, all) && Hashed(all) && DemotionSplit(P, r)
    ensures var all' := AfterDemotion(all, r);
      AccountOk(a, r.kept.items, Q + r.invalid, all') && SameElsewhere(all, all', a)
  {
    hide AccountOk, SameElsewhere, Hashed, HashesOf, Within, DemotionSplit;
    var all1 := all - HashesOf(r.stale);
    var all2 := all1 - HashesOf(r.unpayable);
    var P1 := P - r.stale.Keys;
    var P2 := P1 - r.unpayable.Keys;
    DemoteStages(P, r);
    AccountDropPending(a, P, Q, all, r.stale);
    StillHashed(all, HashesOf(r.stale));
    AccountDropPending(a, P1, Q, all1, r.unpayable);
    AccountSendBack(a, P2, Q, all2, r.invalid);
    Transitive(all, all1, all2, a);
  }

  lemma DemoteStages(P: Items, r: Demotion)
    requires DemotionSplit(P, r)
    ensures var P1 := P - r.stale.Keys;
            var P2 := P1 - r.unpayable.Keys;
            && Within(r.stale, P) && Within(r.unpayable, P1) && Within(r.invalid, P2)
            && P2 - r.invalid.Keys == r.kept.items
  {
  }
}
