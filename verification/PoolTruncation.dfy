/** truncatePending (core/tx_pool.go): brings the largest remote accounts down, level by level. */
module PoolTruncation {
  import opened Basics
  import opened Transactions
  import opened Lookup
  import opened TxLists
  import opened PoolContent
  import opened TxPools
  import SortedMap

  function Len(lists: Lists, a: Address): nat {
    |ItemsOf(lists, a)|
  }

  // ---------- The number of listed transactions ----------

  ghost function TotalLen(lists: Lists): nat {
    if lists == map[] then 0 else
      var a :| a in lists;
      |lists[a].items| + TotalLen(lists - {a})
  }

  /** The total does not depend on the order of counting. */
  lemma {:induction false} TotalLenMinus(lists: Lists, a: Address)
    requires a in lists
    ensures TotalLen(lists) == |lists[a].items| + TotalLen(lists - {a})
    decreases |lists|
  {
    var b :| b in lists && TotalLen(lists) == |lists[b].items| + TotalLen(lists - {b});
    hide TotalLen;
    if b != a {
      TotalLenMinus(lists - {b}, a);
      TotalLenMinus(lists - {a}, b);
      EitherOrder(lists, a, b);
    }
  }

  lemma EitherOrder(lists: Lists, a: Address, b: Address)
    ensures lists - {b} - {a} == lists - {a} - {b}
  {
  }

  lemma TotalLenUpdate(lists: Lists, a: Address, l: ListValue)
    requires a in lists
    ensures TotalLen(lists[a := l]) == TotalLen(lists) - |lists[a].items| + |l.items|
  {
    TotalLenMinus(lists, a);
    TotalLenMinus(lists[a := l], a);
    assert lists[a := l] - {a} == lists - {a};
  }

  method CountAll(lists: Lists) returns (n: nat)
    ensures n == TotalLen(lists)
  {
    n := 0;
    var rest := lists;
    while rest != map[]
      invariant n + TotalLen(rest) == TotalLen(lists)
      decreases |rest|
    {
      var a :| a in rest.Keys;
      TotalLenMinus(rest, a);
      n := n + |rest[a].items|;
      rest := rest - {a};
    }
  }

  // ---------- truncatePending ----------

  function CapList(l: ListValue, k: nat): ListValue {
    l.(items := Lowest(l.items, k))
  }

  /** The pending lists with the accounts of `s` cut to their `level` lowest nonces. */
  function Leveled(p: Lists, s: set<Address>, level: nat): Lists {
    map a | a in p :: if a in s then CapList(p[a], level) else p[a]
  }

  /** Accounts that lost something. */
  function CutAccounts(p0: Lists, p: Lists): set<Address> {
    set a | a in p0 && Len(p, a) < Len(p0, a)
  }

  lemma RankInside(items: Items, k: nat, n: nat)
    requires n in Lowest(items, k)
    ensures Rank(Lowest(items, k), n) == Rank(items, n)
  {
    LowestFacts(items, k);
    var low := Lowest(items, k);
    assert forall j :: j in items && j < n ==> j in low;
    hide Lowest;
    assert Below(low, n) == Below(items, n);
  }

  /** Cutting twice is cutting to the lower level. */
  lemma LowestNest(items: Items, k: nat, m: nat)
    requires m <= k
    ensures Lowest(Lowest(items, k), m) == Lowest(items, m)
  {
    var low := Lowest(items, k);
    forall n | n in low ensures Rank(low, n) == Rank(items, n) {
      RankInside(items, k, n);
    }
    hide Rank;
  }

  /** Drops the highest nonce of one account (one `Cap(len - 1)` of the loops). */
  method CapOne(pool: TxPool, a: Address)
    requires pool.Sound() && a in pool.pending && |pool.pending[a].items| >= 2
    modifies pool`pending, pool`pendingNonces, pool.all, pool.priced
    ensures pool.Sound()
    ensures pool.pending == old(pool.pending)[a := CapList(old(pool.pending)[a], |old(pool.pending)[a].items| - 1)]
    ensures LowestNonce(old(pool.pendingNonces), pool.pendingNonces, pool.stateNonce, a,
                        old(pool.pending)[a].items.Keys - pool.pending[a].items.Keys)
  {
    hide TxPool.LookupOk, ContentOk, TxLookup.All, HashesOf, ListsOk, CapList, LowestNonce;
    var l := pool.pending[a];
    var kept := CapList(l, |l.items| - 1);
    var caps := l.items - kept.items.Keys;
    pool.AllHashed();
    CapFacts(pool.pending, pool.queue, pool.all.All(), a, |l.items| - 1);
    assert caps.Keys == l.items.Keys - kept.items.Keys;
    pool.ForgetCapped(a, caps);
    pool.pending := pool.pending[a := kept];
  }

  // ---------- The virtual nonces ----------

  /** The virtual nonce of `a` is the least of what it was and `lost`. */
  ghost predicate LeastNonce(before: map<Address, nat>, after: map<Address, nat>, fallback: Address -> nat, a: Address, lost: set<nat>) {
    var was, now := NonceOf(before, fallback, a), NonceOf(after, fallback, a);
    now <= was && (forall n :: n in lost ==> now <= n) && (now == was || now in lost)
  }

  /** The lists only lose transactions, and every virtual nonce is the least of what it was and the nonces its account lost. */
  ghost predicate Pulled(p0: Lists, p: Lists, before: map<Address, nat>, after: map<Address, nat>, fallback: Address -> nat) {
    forall a: Address ::
      && ItemsOf(p, a).Keys <= ItemsOf(p0, a).Keys
      && LeastNonce(before, after, fallback, a, ItemsOf(p0, a).Keys - ItemsOf(p, a).Keys)
  }

  lemma PulledNone(p: Lists, nonces: map<Address, nat>, fallback: Address -> nat)
    ensures Pulled(p, p, nonces, nonces, fallback)
  {
  }

  lemma PulledMore(p0: Lists, p: Lists, before: map<Address, nat>, nonces: map<Address, nat>, after: map<Address, nat>, fallback: Address -> nat,
                   a: Address, kept: ListValue)
    requires Pulled(p0, p, before, nonces, fallback) && a in p && kept.items.Keys <= p[a].items.Keys
    requires LowestNonce(nonces, after, fallback, a, p[a].items.Keys - kept.items.Keys)
    ensures Pulled(p0, p[a := kept], before, after, fallback)
  {
    forall b: Address ensures
      && ItemsOf(p[a := kept], b).Keys <= ItemsOf(p0, b).Keys
      && LeastNonce(before, after, fallback, b, ItemsOf(p0, b).Keys - ItemsOf(p[a := kept], b).Keys) {
      var lost := ItemsOf(p0, b).Keys - ItemsOf(p, b).Keys;
      assert LeastNonce(before, nonces, fallback, b, lost);
      if b == a {
        assert ItemsOf(p0, a).Keys - kept.items.Keys == lost + (p[a].items.Keys - kept.items.Keys);
      } else {
        assert NonceOf(after, fallback, b) == NonceOf(nonces, fallback, b);
      }
    }
  }

  lemma LowestCut(items: Items, k: nat)
    requires 0 < k < |items|
    ensures var kept := Lowest(items, k);
            var caps := items - kept.Keys;
            |kept| == k && kept != map[] && caps.Keys != {} && Within(kept, items) && Within(caps, items) && items - caps.Keys == kept
  {
    LowestFacts(items, k);
    CutParts(items, Lowest(items, k));
  }

  lemma CutParts(items: Items, kept: Items)
    requires Within(kept, items) && 0 < |kept| < |items|
    ensures var caps := items - kept.Keys; kept != map[] && caps.Keys != {} && Within(caps, items) && items - caps.Keys == kept
  {
    var caps := items - kept.Keys;
    assert items.Keys == kept.Keys + caps.Keys;
  }

  lemma CapFacts(p: Lists, q: Lists, all: ByHash, a: Address, k: nat)
    requires ContentOk(p, q, all) && Hashed(all) && ListsOk(p, true) && a in p && 0 < k < |p[a].items|
    ensures var kept := CapList(p[a], k);
            var caps := p[a].items - kept.items.Keys;
            && caps.Keys != {}
            && ListsOk(p[a := kept], true)
            && ContentOk(p[a := kept], q, all - HashesOf(caps))
  {
    hide Lowest, AccountOk, SameElsewhere, HashesOf, Within;
    var kept := CapList(p[a], k);
    var caps := p[a].items - kept.items.Keys;
    LowestCut(p[a].items, k);
    FewerKeepsCaps(p[a], kept.items);
    assert AccountOk(a, ItemsOf(p, a), ItemsOf(q, a), all);
    AccountDropPending(a, ItemsOf(p, a), ItemsOf(q, a), all, caps);
    OneAccount(p, q, all, p[a := kept], q, all - HashesOf(caps), a);
  }

  lemma {:induction false} DistinctCount(s: seq<Address>)
    requires NoDup(s)
    ensures |Elements(s)| == |s|
  {
    if s != [] {
      var k := |s| - 1;
      DistinctCount(s[..k]);
      assert s == s[..k] + [s[k]];
      assert Elements(s) == Elements(s[..k]) + {s[k]};
      assert s[k] !in Elements(s[..k]);
    }
  }

  lemma RoundStep(base: Lists, done: set<Address>, o: Address, level: nat)
    requires o in base && o !in done && |base[o].items| == level >= 1
    ensures var p := Leveled(base, done, level - 1);
            && o in p && p[o] == base[o]
            && p[o := CapList(base[o], level - 1)] == Leveled(base, done + {o}, level - 1)
            && TotalLen(p[o := CapList(base[o], level - 1)]) == TotalLen(p) - 1
  {
    var p := Leveled(base, done, level - 1);
    assert p[o := CapList(base[o], level - 1)] == Leveled(base, done + {o}, level - 1);
    LowestFacts(base[o].items, level - 1);
    TotalLenUpdate(p, o, CapList(base[o], level - 1));
  }

  lemma LeveledLen(p0: Lists, s: set<Address>, level: nat, o: Address)
    requires o in p0 && o in s && level <= |p0[o].items|
    ensures o in Leveled(p0, s, level) && |Leveled(p0, s, level)[o].items| == level
  {
    LowestFacts(p0[o].items, level);
  }

  lemma LeveledAgain(p0: Lists, s: set<Address>, level: nat)
    requires level >= 1
    ensures Leveled(Leveled(p0, s, level), s, level - 1) == Leveled(p0, s, level - 1)
  {
    forall a | a in p0 && a in s ensures CapList(CapList(p0[a], level), level - 1) == CapList(p0[a], level - 1) {
      LowestNest(p0[a].items, level, level - 1);
    }
    hide CapList;
  }

  /** One round of the loops: every account of `offs` stands at `level` and loses one transaction. */
  method DropOneEach(pool: TxPool, offs: seq<Address>, ghost p0: Lists, ghost nonces0: map<Address, nat>, ghost level: nat)
    requires pool.Sound() && NoDup(offs) && level >= 2
    requires Pulled(p0, pool.pending, nonces0, pool.pendingNonces, pool.stateNonce)
    requires pool.pending == Leveled(p0, Elements(offs), level)
    requires forall o :: o in Elements(offs) ==> o in p0 && level <= |p0[o].items|
    modifies pool`pending, pool`pendingNonces, pool.all, pool.priced
    ensures pool.Sound()
    ensures pool.pending == Leveled(p0, Elements(offs), level - 1)
    ensures TotalLen(pool.pending) == old(TotalLen(pool.pending)) - |offs|
    ensures Pulled(p0, pool.pending, nonces0, pool.pendingNonces, pool.stateNonce)
  {
    hide TxPool.Sound, Leveled, CapList, TotalLen, Elements, Pulled, LowestNonce;
    ghost var base := pool.pending;
    RoundStart(base, level);
    var i := 0;
    while i < |offs|
      invariant 0 <= i <= |offs| && pool.Sound()
      invariant pool.pending == Leveled(base, Elements(offs[..i]), level - 1)
      invariant TotalLen(pool.pending) == TotalLen(base) - i
      invariant Pulled(p0, pool.pending, nonces0, pool.pendingNonces, pool.stateNonce)
    {
      NextOffender(offs, i);
      LeveledLen(p0, Elements(offs), level, offs[i]);
      RoundStep(base, Elements(offs[..i]), offs[i], level);
      ghost var p, nonces := pool.pending, pool.pendingNonces;
      CapOne(pool, offs[i]);
      KeptKeys(p[offs[i]], |p[offs[i]].items| - 1);
      PulledMore(p0, p, nonces0, nonces, pool.pendingNonces, pool.stateNonce, offs[i], pool.pending[offs[i]]);
      i := i + 1;
    }
    assert offs[..i] == offs;
    LeveledAgain(p0, Elements(offs), level);
  }

  lemma KeptKeys(l: ListValue, k: nat)
    ensures CapList(l, k).items.Keys <= l.items.Keys
  {
  }

  lemma RoundStart(base: Lists, level: nat)
    requires level >= 1
    ensures base == Leveled(base, Elements([]), level - 1)
    ensures forall s: seq<Address> :: s[..0] == []
  {
  }

  lemma NextOffender(offs: seq<Address>, i: nat)
    requires NoDup(offs) && i < |offs|
    ensures offs[i] in Elements(offs) && offs[i] !in Elements(offs[..i])
    ensures Elements(offs[..i + 1]) == Elements(offs[..i]) + {offs[i]}
  {
    assert offs[..i + 1] == offs[..i] + [offs[i]];
  }

  // ---------- The loops of truncatePending ----------

  /** Every account outside `locals` is cut to its `level` lowest nonces, or left alone if it has no more. */
  function WaterLine(p: Lists, locals: set<Address>, level: nat): Lists {
    Leveled(p, p.Keys - locals, level)
  }

  datatype Limits = Limits(accountSlots: nat, globalSlots: nat)

  /** Who is an offender, who may still become one, and who is too small or local. */
  ghost predicate Ranked(p0: Lists, locals: set<Address>, lim: Limits, offenders: seq<Address>, spammers: map<Address, nat>, level: nat) {
    && NoDup(offenders)
    && (forall o :: o in Elements(offenders) ==> o in p0 && o !in locals && lim.accountSlots < Len(p0, o))
    && (forall b :: b in spammers ==>
          b in p0 && b !in locals && b !in Elements(offenders) && spammers[b] == Len(p0, b) && lim.accountSlots < spammers[b] <= level)
    && (forall a :: a in p0 && a !in locals && a !in Elements(offenders) && a !in spammers ==> Len(p0, a) <= lim.accountSlots)
    && lim.accountSlots <= level
  }

  /** The offenders stand at the common level, and no more was dropped than the last round had to. */
  ghost predicate Filled(p0: Lists, lim: Limits, offenders: seq<Address>, level: nat, p: Lists, count: nat) {
    && p == Leveled(p0, Elements(offenders), level)
    && count == TotalLen(p)
    && (lim.globalSlots < count ==> forall o :: o in Elements(offenders) ==> level <= Len(p0, o))
    && (p != p0 ==> lim.globalSlots < count + |CutAccounts(p0, p)|)
  }

  method TruncatePending(pool: TxPool) returns (ghost level: nat)
    requires pool.Valid()
    modifies pool`pending, pool`pendingNonces, pool.all, pool.priced
    ensures pool.Valid()
    ensures pool.config.accountSlots <= level
    ensures pool.pending == WaterLine(old(pool.pending), pool.locals, level)
    ensures TotalLen(pool.pending) <= pool.config.globalSlots
            || forall a :: a in pool.pending && a !in pool.locals ==> Len(pool.pending, a) <= pool.config.accountSlots
    ensures pool.pending != old(pool.pending) ==>
              pool.config.globalSlots < TotalLen(pool.pending) + |CutAccounts(old(pool.pending), pool.pending)|
    ensures Pulled(old(pool.pending), pool.pending, old(pool.pendingNonces), pool.pendingNonces, pool.stateNonce)
  {
    hide TxPool.Sound, Leveled, TotalLen, Elements, Ranked, Filled, WaterLine, CutAccounts, Len, Pulled;
    ghost var p0, nonces0, locals := pool.pending, pool.pendingNonces, pool.locals;
    PulledNone(p0, nonces0, pool.stateNonce);
    ghost var lim := Limits(pool.config.accountSlots, pool.config.globalSlots);
    var count: nat := CountAll(pool.pending);
    level := TotalLen(p0) + lim.accountSlots;
    FillStart(p0, locals, lim);
    if count <= pool.config.globalSlots {
      FillDone(p0, locals, lim, [], Spammers(p0, locals, lim.accountSlots), level, p0, count);
      return;
    }
    var spammers := Spammers(pool.pending, pool.locals, pool.config.accountSlots);
    var offenders: seq<Address> := [];
    while count > pool.config.globalSlots && spammers != map[]
      invariant pool.Valid()
      invariant Ranked(p0, locals, lim, offenders, spammers, level) && Filled(p0, lim, offenders, level, pool.pending, count)
      invariant Pulled(p0, pool.pending, nonces0, pool.pendingNonces, pool.stateNonce)
      decreases |spammers|
    {
      var offender := PopLargest(spammers);
      ghost var before := level;
      Picked(p0, locals, lim, offenders, spammers, level, offender);
      if |offenders| > 0 {
        count, level := Equalize(pool, offenders, spammers[offender], count, p0, nonces0, lim, level);
      } else {
        FirstLevel(p0, lim, level, spammers[offender], pool.pending, count);
        level := spammers[offender];
      }
      Joined(p0, locals, lim, offenders, spammers, before, level, pool.pending, count, offender);
      offenders := offenders + [offender];
      spammers := spammers - {offender};
    }
    if count > pool.config.globalSlots && |offenders| > 0 {
      RankedFacts(p0, locals, lim, offenders, spammers, level);
      ghost var before := level;
      count, level := Equalize(pool, offenders, pool.config.accountSlots, count, p0, nonces0, lim, level);
      RankedLower(p0, locals, lim, offenders, spammers, before, level);
    }
    FillDone(p0, locals, lim, offenders, spammers, level, pool.pending, count);
  }

  /** The accounts the loops may cut, with their sizes. */
  function Spammers(p: Lists, locals: set<Address>, accountSlots: nat): map<Address, nat> {
    map a | a in p && a !in locals && accountSlots < Len(p, a) :: Len(p, a)
  }

  /** Prque.Pop: an entry of greatest priority. */
  method PopLargest(q: map<Address, nat>) returns (x: Address)
    requires q != map[]
    ensures x in q && forall b :: b in q ==> q[b] <= q[x]
  {
    x :| x in q.Keys;
    var rest := q.Keys - {x};
    while rest != {}
      invariant x in q && rest <= q.Keys && forall b :: b in q && b !in rest ==> q[b] <= q[x]
      decreases rest
    {
      var b :| b in rest;
      rest := rest - {b};
      if q[b] > q[x] {
        x := b;
      }
    }
  }

  /** Brings the offenders down towards the size of the next one. */
  method Equalize(pool: TxPool, offs: seq<Address>, threshold: nat, count0: nat, ghost p0: Lists, ghost nonces0: map<Address, nat>,
                  ghost lim: Limits, ghost level0: nat)
    returns (count: nat, ghost level: nat)
    requires pool.Valid() && lim == Limits(pool.config.accountSlots, pool.config.globalSlots)
    requires |offs| > 0 && NoDup(offs) && (forall o :: o in Elements(offs) ==> o in p0)
    requires Filled(p0, lim, offs, level0, pool.pending, count0) && 1 <= threshold <= level0
    requires Pulled(p0, pool.pending, nonces0, pool.pendingNonces, pool.stateNonce)
    modifies pool`pending, pool`pendingNonces, pool.all, pool.priced
    ensures pool.Valid()
    ensures Filled(p0, lim, offs, level, pool.pending, count) && threshold <= level
    ensures lim.globalSlots < count ==> level == threshold
    ensures Pulled(p0, pool.pending, nonces0, pool.pendingNonces, pool.stateNonce)
  {
    hide TxPool.Sound, Leveled, TotalLen, Elements, Filled, CutAccounts, Pulled;
    count, level := count0, level0;
    assert offs[|offs| - 1] in Elements(offs) by { LastIsElement(offs); }
    LevelShows(p0, lim, offs, level, pool.pending, count);
    while count > pool.config.globalSlots && Len(pool.pending, offs[|offs| - 1]) > threshold
      invariant pool.Valid() && threshold <= level
      invariant Filled(p0, lim, offs, level, pool.pending, count)
      invariant lim.globalSlots < count ==> Len(pool.pending, offs[|offs| - 1]) == level
      invariant Pulled(p0, pool.pending, nonces0, pool.pendingNonces, pool.stateNonce)
      decreases level
    {
      FilledFacts(p0, lim, offs, level, pool.pending, count);
      DropOneEach(pool, offs, p0, nonces0, level);
      RoundDone(p0, lim, offs, level, count);
      count := count - |offs|;
      level := level - 1;
      LevelShows(p0, lim, offs, level, pool.pending, count);
    }
  }

  lemma LastIsElement(s: seq<Address>)
    requires |s| > 0
    ensures s[|s| - 1] in Elements(s)
  {
  }

  /** While the pool is over its limit, the size of any offender is the level. */
  lemma LevelShows(p0: Lists, lim: Limits, offs: seq<Address>, level: nat, p: Lists, count: nat)
    requires Filled(p0, lim, offs, level, p, count) && |offs| > 0 && offs[|offs| - 1] in p0
    ensures lim.globalSlots < count ==> Len(p, offs[|offs| - 1]) == level
  {
    LastIsElement(offs);
    if lim.globalSlots < count {
      LeveledLen(p0, Elements(offs), level, offs[|offs| - 1]);
    }
  }

  lemma FilledFacts(p0: Lists, lim: Limits, offs: seq<Address>, level: nat, p: Lists, count: nat)
    requires Filled(p0, lim, offs, level, p, count) && (forall o :: o in Elements(offs) ==> o in p0)
    ensures p == Leveled(p0, Elements(offs), level) && count == TotalLen(p)
    ensures lim.globalSlots < count ==> forall o :: o in Elements(offs) ==> level <= |p0[o].items|
  {
  }

  /** A round keeps the bookkeeping: it cuts every offender, so it cannot overshoot by more than the accounts cut. */
  lemma RoundDone(p0: Lists, lim: Limits, offs: seq<Address>, level: nat, count: nat)
    requires Filled(p0, lim, offs, level, Leveled(p0, Elements(offs), level), count)
    requires lim.globalSlots < count && level >= 1 && NoDup(offs) && (forall o :: o in Elements(offs) ==> o in p0)
    requires TotalLen(Leveled(p0, Elements(offs), level - 1)) == TotalLen(Leveled(p0, Elements(offs), level)) - |offs|
    ensures |offs| <= count
    ensures Filled(p0, lim, offs, level - 1, Leveled(p0, Elements(offs), level - 1), count - |offs|)
  {
    hide Leveled, CutAccounts;
    RoundCuts(p0, offs, level);
    DistinctCount(offs);
    SubsetSize(Elements(offs), CutAccounts(p0, Leveled(p0, Elements(offs), level - 1)));
  }

  lemma RoundCuts(p0: Lists, offs: seq<Address>, level: nat)
    requires level >= 1 && (forall o :: o in Elements(offs) ==> o in p0 && level <= Len(p0, o))
    ensures Elements(offs) <= CutAccounts(p0, Leveled(p0, Elements(offs), level - 1))
  {
    hide Leveled;
    forall o | o in Elements(offs) ensures Len(Leveled(p0, Elements(offs), level - 1), o) < Len(p0, o) {
      LeveledLen(p0, Elements(offs), level - 1, o);
    }
  }

  lemma {:induction false} SubsetSize(a: set<Address>, b: set<Address>)
    requires a <= b
    ensures |a| <= |b|
  {
    assert b == a + (b - a);
  }

  lemma LenBelowTotal(p: Lists, a: Address)
    ensures Len(p, a) <= TotalLen(p)
  {
    if a in p {
      TotalLenMinus(p, a);
    }
  }

  lemma UncutList(p: Lists, a: Address, level: nat)
    requires a in p && Len(p, a) <= level
    ensures CapList(p[a], level) == p[a]
  {
    SortedMap.LowestAll(p[a].items, level);
  }

  lemma FillStart(p0: Lists, locals: set<Address>, lim: Limits)
    ensures var level := TotalLen(p0) + lim.accountSlots;
            && Ranked(p0, locals, lim, [], Spammers(p0, locals, lim.accountSlots), level)
            && Filled(p0, lim, [], level, p0, TotalLen(p0))
  {
    forall a | a in p0 ensures Len(p0, a) <= TotalLen(p0) {
      LenBelowTotal(p0, a);
    }
    assert Elements<Address>([]) == {};
    assert Leveled(p0, {}, TotalLen(p0) + lim.accountSlots) == p0;
  }

  lemma RankedFacts(p0: Lists, locals: set<Address>, lim: Limits, offs: seq<Address>, spammers: map<Address, nat>, level: nat)
    requires Ranked(p0, locals, lim, offs, spammers, level)
    ensures NoDup(offs) && (forall o :: o in Elements(offs) ==> o in p0) && lim.accountSlots <= level
  {
  }

  lemma RankedLower(p0: Lists, locals: set<Address>, lim: Limits, offs: seq<Address>, spammers: map<Address, nat>, level: nat, level': nat)
    requires Ranked(p0, locals, lim, offs, spammers, level) && spammers == map[] && lim.accountSlots <= level'
    ensures Ranked(p0, locals, lim, offs, spammers, level')
  {
  }

  lemma Picked(p0: Lists, locals: set<Address>, lim: Limits, offs: seq<Address>, spammers: map<Address, nat>, level: nat, x: Address)
    requires Ranked(p0, locals, lim, offs, spammers, level) && x in spammers
    ensures NoDup(offs) && (forall o :: o in Elements(offs) ==> o in p0)
    ensures lim.accountSlots < spammers[x] <= level
  {
  }

  /** The popped account joins the offenders at the new level. */
  lemma Joined(p0: Lists, locals: set<Address>, lim: Limits, offs: seq<Address>, spammers: map<Address, nat>,
               before: nat, level: nat, p: Lists, count: nat, x: Address)
    requires Ranked(p0, locals, lim, offs, spammers, before)
    requires x in spammers && (forall b :: b in spammers ==> spammers[b] <= spammers[x]) && spammers[x] <= level
    requires Filled(p0, lim, offs, level, p, count)
    requires lim.globalSlots < count ==> level == spammers[x]
    ensures Ranked(p0, locals, lim, offs + [x], spammers - {x}, level)
    ensures Filled(p0, lim, offs + [x], level, p, count)
  {
    hide Ranked, Filled;
    RankedJoin(p0, locals, lim, offs, spammers, before, level, x);
    FilledJoin(p0, lim, offs, level, p, count, x);
  }

  lemma MoreOffenders(offs: seq<Address>, x: Address)
    requires NoDup(offs) && x !in Elements(offs)
    ensures NoDup(offs + [x]) && Elements(offs + [x]) == Elements(offs) + {x}
  {
    forall i | 0 <= i < |offs| ensures offs[i] != x { assert offs[i] in Elements(offs); }
  }

  lemma RankedJoin(p0: Lists, locals: set<Address>, lim: Limits, offs: seq<Address>, spammers: map<Address, nat>,
                   before: nat, level: nat, x: Address)
    requires Ranked(p0, locals, lim, offs, spammers, before)
    requires x in spammers && (forall b :: b in spammers ==> spammers[b] <= spammers[x]) && spammers[x] <= level
    ensures Ranked(p0, locals, lim, offs + [x], spammers - {x}, level)
    ensures NoDup(offs) && x in p0 && x !in Elements(offs) && Len(p0, x) == spammers[x]
  {
    MoreOffenders(offs, x);
    hide Elements, NoDup, Len;
  }

  lemma FilledJoin(p0: Lists, lim: Limits, offs: seq<Address>, level: nat, p: Lists, count: nat, x: Address)
    requires Filled(p0, lim, offs, level, p, count)
    requires NoDup(offs) && x in p0 && x !in Elements(offs) && Len(p0, x) <= level
    requires lim.globalSlots < count ==> level == Len(p0, x)
    ensures Filled(p0, lim, offs + [x], level, p, count)
  {
    hide Len, CutAccounts, NoDup;
    MoreOffenders(offs, x);
    UncutList(p0, x, level);
    SameLevel(p0, Elements(offs), level, x);
    hide Elements, Leveled;
  }

  lemma SameLevel(p0: Lists, s: set<Address>, level: nat, x: Address)
    requires x in p0 && CapList(p0[x], level) == p0[x]
    ensures Leveled(p0, s + {x}, level) == Leveled(p0, s, level)
  {
    hide CapList;
  }

  lemma FirstLevel(p0: Lists, lim: Limits, level: nat, level': nat, p: Lists, count: nat)
    requires Filled(p0, lim, [], level, p, count)
    ensures Filled(p0, lim, [], level', p, count)
  {
    assert Elements<Address>([]) == {};
    assert Leveled(p0, {}, level) == Leveled(p0, {}, level');
  }

  lemma FillDone(p0: Lists, locals: set<Address>, lim: Limits, offs: seq<Address>, spammers: map<Address, nat>,
                 level: nat, p: Lists, count: nat)
    requires Ranked(p0, locals, lim, offs, spammers, level) && Filled(p0, lim, offs, level, p, count)
    requires lim.globalSlots < count ==> spammers == map[] && (offs == [] || level == lim.accountSlots)
    ensures p == WaterLine(p0, locals, level) && lim.accountSlots <= level && count == TotalLen(p)
    ensures lim.globalSlots < count ==> forall a :: a in p && a !in locals ==> Len(p, a) <= lim.accountSlots
    ensures p != p0 ==> lim.globalSlots < TotalLen(p) + |CutAccounts(p0, p)|
  {
    forall a | a in p0 && a !in locals && a !in Elements(offs) ensures CapList(p0[a], level) == p0[a] {
      UncutList(p0, a, level);
    }
    forall a | a in p0 ensures a in p && Len(p, a) <= Len(p0, a) && (a in Elements(offs) ==> Len(p, a) <= level) {
      LowestFacts(p0[a].items, level);
    }
    hide CapList;
    assert p == WaterLine(p0, locals, level);
  }
}
