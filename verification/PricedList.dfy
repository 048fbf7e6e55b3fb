/** priceHeap and txPricedList (core/tx_list.go): two heaps of the remote transactions by price.
    An entry is live while its hash is among the remotes of the lookup; dead entries are popped lazily. */
module PricedList {
  import opened Basics
  import opened Transactions
  import opened Lookup
  import Heap = BinaryHeap

  const URGENT_RATIO: nat := 4
  const FLOATING_RATIO: nat := 1

  // ---------- The price order ----------

  function Sign(x: int): int {
    if x < 0 then -1 else if x == 0 then 0 else 1
  }

  function EffectiveTip(tx: Tx, baseFee: nat): int {
    if tx.tipCap <= tx.feeCap - baseFee then tx.tipCap else tx.feeCap - baseFee
  }

  function Cmp(baseFee: Option<nat>, a: Tx, b: Tx): int {
    if baseFee.Some? && EffectiveTip(a, baseFee.value) != EffectiveTip(b, baseFee.value) then
      Sign(EffectiveTip(a, baseFee.value) - EffectiveTip(b, baseFee.value))
    else if a.feeCap != b.feeCap then Sign(a.feeCap - b.feeCap)
    else Sign(a.tipCap - b.tipCap)
  }

  predicate Cheaper(baseFee: Option<nat>, a: Tx, b: Tx) {
    Cmp(baseFee, a, b) == -1 || (Cmp(baseFee, a, b) == 0 && a.nonce > b.nonce)
  }

  function Order(baseFee: Option<nat>): (Tx, Tx) -> bool {
    (a, b) => Cheaper(baseFee, a, b)
  }

  lemma OrderIsStrict(baseFee: Option<nat>)
    ensures Heap.StrictWeakOrder(Order(baseFee))
  {
  }

  /** The head alone decides whether every entry is at least as dear as `tx`. */
  lemma HeadDecides(baseFee: Option<nat>, h: seq<Tx>, tx: Tx)
    requires Heap.IsHeap(Order(baseFee), h) && |h| > 0 && Cmp(baseFee, h[0], tx) >= 0
    ensures forall e :: e in h ==> Cmp(baseFee, e, tx) >= 0
  {
    OrderIsStrict(baseFee);
    forall e | e in h ensures Cmp(baseFee, e, tx) >= 0 {
      var k :| 0 <= k < |h| && h[k] == e;
      Heap.RootIsMinimal(Order(baseFee), h, k);
      assert !Cheaper(baseFee, e, h[0]);
    }
  }

  // ---------- Live entries ----------

  predicate Live(e: Tx, remotes: ByHash) {
    e.hash in remotes
  }

  /** `after` lost only dead entries. */
  ghost predicate SameLive(before: multiset<Tx>, after: multiset<Tx>, remotes: ByHash) {
    after <= before && forall e :: Live(e, remotes) ==> after[e] == before[e]
  }

  lemma LoseDead(before: multiset<Tx>, after: multiset<Tx>, e: Tx, remotes: ByHash)
    requires SameLive(before, after + multiset{e}, remotes) && !Live(e, remotes)
    ensures SameLive(before, after, remotes)
  {
    assert after <= after + multiset{e};
  }

  function SlotTotal(s: seq<Tx>): nat {
    if s == [] then 0 else SlotTotal(s[..|s| - 1]) + NumSlots(s[|s| - 1])
  }

  lemma SlotTotalAppend(s: seq<Tx>, tx: Tx)
    ensures SlotTotal(s + [tx]) == SlotTotal(s) + NumSlots(tx)
  {
    assert (s + [tx])[..|s|] == s;
  }

  /** Pops dead entries off the front. */
  method DropDeadHead(baseFee: Option<nat>, h: seq<Tx>, remotes: ByHash) returns (r: seq<Tx>)
    requires Heap.IsHeap(Order(baseFee), h)
    ensures Heap.IsHeap(Order(baseFee), r)
    ensures SameLive(multiset(h), multiset(r), remotes)
    ensures r != [] ==> Live(r[0], remotes)
  {
    hide Heap.IsHeap, Heap.StrictWeakOrder, SameLive;
    OrderIsStrict(baseFee);
    r := h;
    SameLiveRefl(multiset(h), remotes);
    while |r| > 0 && !Live(r[0], remotes)
      invariant Heap.IsHeap(Order(baseFee), r)
      invariant SameLive(multiset(h), multiset(r), remotes)
      decreases |r|
    {
      var x;
      r, x := Heap.Pop(Order(baseFee), r);
      LoseDead(multiset(h), multiset(r), x, remotes);
    }
  }

  lemma SameLiveRefl(m: multiset<Tx>, remotes: ByHash)
    ensures SameLive(m, m, remotes)
  {
  }

  /** Every live entry of `h` is at least as dear as `tx`. */
  ghost predicate NoneCheaper(baseFee: Option<nat>, h: multiset<Tx>, tx: Tx, remotes: ByHash) {
    forall e :: e in h && Live(e, remotes) ==> Cmp(baseFee, e, tx) >= 0
  }

  ghost predicate SomeLive(h: multiset<Tx>, remotes: ByHash) {
    exists e :: e in h && Live(e, remotes)
  }

  /** underpricedFor on one heap. */
  method UnderpricedFor(baseFee: Option<nat>, h: seq<Tx>, remotes: ByHash, tx: Tx) returns (r: seq<Tx>, under: bool)
    requires Heap.IsHeap(Order(baseFee), h)
    ensures Heap.IsHeap(Order(baseFee), r)
    ensures SameLive(multiset(h), multiset(r), remotes)
    ensures r != [] <==> SomeLive(multiset(h), remotes)
    ensures under <==> SomeLive(multiset(h), remotes) && NoneCheaper(baseFee, multiset(h), tx, remotes)
  {
    r := DropDeadHead(baseFee, h, remotes);
    under := |r| > 0 && Cmp(baseFee, r[0], tx) >= 0;
    FrontDecides(baseFee, h, r, remotes, tx);
  }

  lemma FrontDecides(baseFee: Option<nat>, h: seq<Tx>, r: seq<Tx>, remotes: ByHash, tx: Tx)
    requires Heap.IsHeap(Order(baseFee), r) && SameLive(multiset(h), multiset(r), remotes)
    requires r != [] ==> Live(r[0], remotes)
    ensures r != [] <==> SomeLive(multiset(h), remotes)
    ensures r != [] ==> (Cmp(baseFee, r[0], tx) >= 0 <==> NoneCheaper(baseFee, multiset(h), tx, remotes))
  {
    hide Cmp, Heap.IsHeap;
    forall e | e in multiset(h) && Live(e, remotes) ensures e in r {
      assert e in multiset(r);
    }
    if r != [] {
      assert r[0] in multiset(r);
      assert r[0] in multiset(h);
      if Cmp(baseFee, r[0], tx) >= 0 {
        HeadDecides(baseFee, r, tx);
      }
    }
  }

  /** What the heaps hold, the count of stale entries, and the base fee of the urgent order. */
  datatype Heaps = Heaps(urgent: multiset<Tx>, floating: multiset<Tx>, stales: int, baseFee: Option<nat>) {
    ghost function Entries(): multiset<Tx> {
      urgent + floating
    }
  }

  class TxPricedList {
    const all: TxLookup
    var stales: int
    var baseFee: Option<nat>
    var urgent: seq<Tx>
    var floating: seq<Tx>

    ghost predicate Valid()
      reads this
    {
      Heap.IsHeap(Order(baseFee), urgent) && Heap.IsHeap(Order(None), floating)
    }

    ghost function Entries(): multiset<Tx>
      reads this
    {
      multiset(urgent) + multiset(floating)
    }

    ghost function State(): Heaps
      reads this
    {
      Heaps(multiset(urgent), multiset(floating), stales, baseFee)
    }

    constructor (all: TxLookup)
      ensures Valid() && this.all == all && State() == Heaps(multiset{}, multiset{}, 0, None)
    {
      this.all := all;
      stales, baseFee, urgent, floating := 0, None, [], [];
    }

    method Put(tx: Tx, local: bool)
      requires Valid()
      modifies this
      ensures Valid()
      ensures State() == if local then old(State()) else old(State()).(urgent := old(State()).urgent + multiset{tx})
      ensures Entries() == if local then old(Entries()) else old(Entries()) + multiset{tx}
    {
      if local {
        return;
      }
      hide Heap.IsHeap, Heap.StrictWeakOrder;
      OrderIsStrict(baseFee);
      urgent := Heap.Push(Order(baseFee), urgent, tx);
    }

    /** Lazy answer equals a full scan of the live entries, and no live entry is lost. */
    method Underpriced(tx: Tx) returns (r: bool)
      requires Valid()
      modifies this
      ensures Valid() && baseFee == old(baseFee)
      ensures SameLive(old(multiset(urgent)), multiset(urgent), all.remotes)
      ensures SameLive(old(multiset(floating)), multiset(floating), all.remotes)
      ensures r <==>
        && SomeLive(old(Entries()), all.remotes)
        && NoneCheaper(old(baseFee), old(multiset(urgent)), tx, all.remotes)
        && NoneCheaper(None, old(multiset(floating)), tx, all.remotes)
    {
      hide Heap.IsHeap, Cmp, SameLive;
      ghost var u0, f0 := multiset(urgent), multiset(floating);
      SplitLive(baseFee, u0, f0, all.remotes, tx);
      SameLiveRefl(f0, all.remotes);
      var under;
      var before := |urgent|;
      urgent, under := UnderpricedFor(baseFee, urgent, all.remotes, tx);
      stales := stales - (before - |urgent|);
      r := false;
      if under || |urgent| == 0 {
        before := |floating|;
        floating, under := UnderpricedFor(None, floating, all.remotes, tx);
        stales := stales - (before - |floating|);
        r := (under || |floating| == 0) && (|urgent| != 0 || |floating| != 0);
      }
    }

    /** Evicts the most underpriced transactions until `slots` slots are freed.
        The live entries are split exactly into kept and dropped ones. */
    method Discard(slots: int, force: bool) returns (drop: seq<Tx>, ok: bool)
      requires Valid()
      modifies this
      ensures Valid() && baseFee == old(baseFee)
      ensures forall e :: e in drop ==> Live(e, all.remotes)
      ensures SameLive(old(Entries()), Entries() + multiset(drop), all.remotes)
      ensures ok && drop != [] ==> SlotTotal(drop[..|drop| - 1]) < slots
      ensures ok && SlotTotal(drop) < slots ==> force && Entries() == multiset{}
      ensures !ok ==> drop == []
      ensures ok <==> force || Enough(old(Entries()), all.remotes, slots)
      ensures Cheapest(drop, old(State()), State())
    {
      hide Heap.IsHeap, SlotTotal, Enough;
      var need;
      drop, need := Evict(slots);
      if need > 0 && !force {
        NothingElse(old(Entries()), urgent, floating, drop, all.remotes, slots);
        Restore(drop);
        return [], false;
      }
      if need <= 0 {
        DropIsEnough(old(Entries()), Entries(), drop, all.remotes, slots);
      }
      return drop, true;
    }

    /** The eviction loop of `Discard`; `need` is what is still missing. */
    method Evict(slots: int) returns (drop: seq<Tx>, need: int)
      requires Valid()
      modifies this
      ensures Valid() && baseFee == old(baseFee)
      ensures Discarding(old(Entries()), urgent, floating, drop, all.remotes, slots, need)
      ensures need > 0 ==> urgent == [] && floating == []
      ensures Cheapest(drop, old(State()), State())
    {
      hide Heap.IsHeap, Heap.StrictWeakOrder, Discarding, Sinking, Cheapest;
      OrderIsStrict(baseFee);
      OrderIsStrict(None);
      drop := [];
      need := slots;
      ghost var h0, start, remotes := State(), Entries(), all.remotes;
      SinkStart(h0, need <= 0);
      DiscardStart(urgent, floating, remotes, slots);
      while need > 0
        invariant Valid() && baseFee == old(baseFee)
        invariant Discarding(start, urgent, floating, drop, remotes, slots, need)
        invariant Sinking(h0, State(), drop, need <= 0)
        decreases 2 * |urgent| + |floating|
      {
        if |urgent| * FLOATING_RATIO > |floating| * URGENT_RATIO {
          DemoteUrgent(h0, drop, slots, need);
        } else {
          if |floating| == 0 {
            Sunk(h0, State(), drop, false);
            return;
          }
          ghost var h, u0, f0 := State(), urgent, floating;
          var tx;
          floating, tx := Heap.Pop(Order(None), floating);
          if !Live(tx, all.remotes) {
            stales := stales - 1;
            SinkLess(h0, h, State(), drop);
            PopDead(start, u0, f0, urgent, floating, tx, drop, remotes, slots, need);
          } else {
            PopLive(start, u0, f0, urgent, floating, tx, drop, remotes, slots, need);
            SinkDrop(h0, h, State(), f0, tx, drop);
            drop := drop + [tx];
            need := need - NumSlots(tx);
          }
        }
      }
      Sunk(h0, State(), drop, true);
    }

    /** One round on the urgent heap: its head is dead, or moves to the floating heap. */
    method DemoteUrgent(ghost h0: Heaps, ghost drop: seq<Tx>, ghost slots: int, ghost need: int)
      requires Valid() && |urgent| > 0 && Discarding(h0.Entries(), urgent, floating, drop, all.remotes, slots, need)
      requires Sinking(h0, State(), drop, false)
      modifies this
      ensures Valid() && baseFee == old(baseFee) && Discarding(h0.Entries(), urgent, floating, drop, all.remotes, slots, need)
      ensures Sinking(h0, State(), drop, false)
      ensures 2 * |urgent| + |floating| < old(2 * |urgent| + |floating|)
    {
      hide Heap.IsHeap, Heap.StrictWeakOrder, Discarding, Sinking;
      OrderIsStrict(baseFee);
      OrderIsStrict(None);
      ghost var start, h, u0, f0 := h0.Entries(), State(), urgent, floating;
      var tx;
      urgent, tx := Heap.Pop(Order(baseFee), urgent);
      if !Live(tx, all.remotes) {
        stales := stales - 1;
        SinkLess(h0, h, State(), drop);
        PopDead(start, u0, f0, urgent, floating, tx, drop, all.remotes, slots, need);
      } else {
        floating := Heap.Push(Order(None), floating, tx);
        Shift(start, u0, f0, urgent, floating, drop, all.remotes, slots, need);
        SinkShift(h0, h, State(), u0, tx, drop);
      }
    }

    /** Puts transactions back into the urgent heap. */
    method Restore(txs: seq<Tx>)
      requires Valid()
      modifies this`urgent
      ensures Valid()
      ensures multiset(urgent) == old(multiset(urgent)) + multiset(txs)
    {
      hide Heap.IsHeap, Heap.StrictWeakOrder;
      OrderIsStrict(baseFee);
      for i := 0 to |txs|
        invariant Valid()
        invariant multiset(urgent) == old(multiset(urgent)) + multiset(txs[..i])
      {
        urgent := Heap.Push(Order(baseFee), urgent, txs[i]);
        assert txs[..i + 1] == txs[..i] + [txs[i]];
      }
      assert txs[..|txs|] == txs;
    }

    /** Rebuilds both heaps: every remote transaction is tracked exactly once. */
    method Reheap()
      requires Hashed(all.remotes)
      modifies this
      ensures Valid() && baseFee == old(baseFee) && stales == 0
      ensures TracksOnce(Entries(), all.remotes)
      ensures |floating| == |all.remotes| * FLOATING_RATIO / (URGENT_RATIO + FLOATING_RATIO)
    {
      hide Heap.IsHeap, Heap.StrictWeakOrder, TracksOnce;
      stales := 0;
      var remotes := ListRemotes(all.remotes);
      OrderIsStrict(baseFee);
      OrderIsStrict(None);
      urgent := Heap.Init(Order(baseFee), remotes);
      var floatingCount := |urgent| * FLOATING_RATIO / (URGENT_RATIO + FLOATING_RATIO);
      floating := [];
      while |floating| < floatingCount
        invariant stales == 0 && baseFee == old(baseFee) && |floating| <= floatingCount
        invariant |urgent| + |floating| == |remotes|
        invariant Heap.IsHeap(Order(baseFee), urgent)
        invariant Entries() == multiset(remotes)
      {
        var tx;
        urgent, tx := Heap.Pop(Order(baseFee), urgent);
        floating := floating + [tx];
      }
      floating := Heap.Init(Order(None), floating);
    }

    /** Counts entries gone stale and rebuilds the heaps once they exceed a quarter. */
    method Removed(count: int)
      requires Valid() && Hashed(all.remotes)
      modifies this
      ensures Valid()
      ensures AfterRemoved(old(State()), count, State(), all.remotes)
    {
      stales := stales + count;
      if stales <= (|urgent| + |floating|) / 4 {
        return;
      }
      Reheap();
    }

    method SetBaseFee(fee: nat)
      requires Hashed(all.remotes)
      modifies this
      ensures Valid() && baseFee == Some(fee)
      ensures TracksOnce(Entries(), all.remotes)
    {
      baseFee := Some(fee);
      Reheap();
    }
  }

  /** The entries are exactly the given transactions, each once. */
  ghost predicate TracksOnce(entries: multiset<Tx>, remotes: ByHash) {
    forall e :: entries[e] == if Live(e, remotes) && remotes[e.hash] == e then 1 else 0
  }

  /** The effect of counting removed entries: nothing while at most a quarter may be stale, else a rebuild. */
  ghost predicate AfterRemoved(before: Heaps, count: int, after: Heaps, remotes: ByHash) {
    if before.stales + count <= |before.Entries()| / 4 then after == before.(stales := before.stales + count)
    else TracksOnce(after.Entries(), remotes) && after.stales == 0 && after.baseFee == before.baseFee
  }

  /** Both heaps in the same order, and none of the urgent entries cheaper than a floating one. */
  ghost predicate Layered(h: Heaps) {
    h.baseFee == None && forall u, f :: u in h.urgent && f in h.floating ==> !Cheaper(None, u, f)
  }

  /** Nothing left in the floating heap is cheaper than the last transaction dropped. If the heaps were layered,
      nothing left at all is cheaper than any of those dropped. */
  ghost predicate Cheapest(drop: seq<Tx>, before: Heaps, after: Heaps) {
    && (drop != [] ==> forall e :: e in after.floating ==> !Cheaper(None, e, drop[|drop| - 1]))
    && (Layered(before) ==> forall d, e :: d in drop && e in after.Entries() ==> !Cheaper(None, e, d))
  }

  /** Some choice of live entries takes at least `slots` slots. */
  ghost predicate Enough(entries: multiset<Tx>, remotes: ByHash, slots: int) {
    exists s: seq<Tx> :: LiveChoice(s, entries, remotes) && SlotTotal(s) >= slots
  }

  ghost predicate LiveChoice(s: seq<Tx>, entries: multiset<Tx>, remotes: ByHash) {
    multiset(s) <= entries && forall e :: e in s ==> Live(e, remotes)
  }

  lemma {:induction false} SlotTotalSub(s: seq<Tx>, t: seq<Tx>)
    requires multiset(s) <= multiset(t)
    ensures SlotTotal(s) <= SlotTotal(t)
  {
    if s != [] {
      var k := |s| - 1;
      TakeOut(s, k);
      assert s[..k] + s[k + 1..] == s[..k];
      assert s[k] in multiset(s);
      var j :| 0 <= j < |t| && t[j] == s[k];
      TakeOut(t, j);
      Cancel(multiset(s[..k]), multiset(t[..j] + t[j + 1..]), s[k]);
      SlotTotalSub(s[..k], t[..j] + t[j + 1..]);
      SlotTotalWithout(t, j);
    }
  }

  lemma TakeOut(t: seq<Tx>, j: nat)
    requires j < |t|
    ensures multiset(t) == multiset(t[..j] + t[j + 1..]) + multiset{t[j]}
  {
    assert t == t[..j] + [t[j]] + t[j + 1..];
  }

  lemma Cancel(a: multiset<Tx>, b: multiset<Tx>, x: Tx)
    requires a + multiset{x} <= b + multiset{x}
    ensures a <= b
  {
    forall e ensures a[e] <= b[e] {
      assert (a + multiset{x})[e] <= (b + multiset{x})[e];
    }
  }

  lemma {:induction false} SlotTotalWithout(t: seq<Tx>, j: nat)
    requires j < |t|
    ensures SlotTotal(t) == SlotTotal(t[..j] + t[j + 1..]) + NumSlots(t[j])
  {
    var k := |t| - 1;
    if j == k {
      assert t[..j] + t[j + 1..] == t[..k];
    } else {
      SlotTotalWithout(t[..k], j);
      var rest := t[..j] + t[j + 1..];
      assert rest[..|rest| - 1] == t[..k][..j] + t[..k][j + 1..];
    }
  }

  /** When even dropping every live entry is not enough, no choice of live entries is. */
  lemma NotEnough(before: multiset<Tx>, drop: seq<Tx>, remotes: ByHash, slots: int)
    requires SameLive(before, multiset(drop), remotes) && SlotTotal(drop) < slots
    ensures !Enough(before, remotes, slots)
  {
    forall s: seq<Tx> | LiveChoice(s, before, remotes) ensures SlotTotal(s) < slots {
      forall e ensures multiset(s)[e] <= multiset(drop)[e] {
        if e in multiset(s) {
          assert e in s && Live(e, remotes);
        }
      }
      SlotTotalSub(s, drop);
    }
  }

  /** Ranging over the remotes of the lookup. */
  method ListRemotes(remotes: ByHash) returns (s: seq<Tx>)
    requires Hashed(remotes)
    ensures |s| == |remotes| && TracksOnce(multiset(s), remotes)
  {
    hide TracksOnce;
    s := [];
    var rest := remotes.Keys;
    TrackNone(remotes);
    while rest != {}
      invariant rest <= remotes.Keys && |s| == |remotes| - |rest|
      invariant TracksOnce(multiset(s), remotes - rest)
      decreases rest
    {
      var hash :| hash in rest;
      TrackOne(multiset(s), remotes, rest, hash);
      s := s + [remotes[hash]];
      rest := rest - {hash};
    }
    assert remotes - {} == remotes;
  }

  lemma TrackNone(remotes: ByHash)
    ensures TracksOnce(multiset([]), remotes - remotes.Keys)
  {
  }

  lemma TrackOne(entries: multiset<Tx>, remotes: ByHash, rest: set<Hash>, hash: Hash)
    requires Hashed(remotes) && hash in rest && rest <= remotes.Keys && TracksOnce(entries, remotes - rest)
    ensures TracksOnce(entries + multiset{remotes[hash]}, remotes - (rest - {hash}))
  {
  }

  // ---------- The loop of Discard ----------

  ghost predicate Discarding(start: multiset<Tx>, u: seq<Tx>, f: seq<Tx>, drop: seq<Tx>, remotes: ByHash, slots: int, need: int) {
    && SameLive(start, multiset(u) + multiset(f) + multiset(drop), remotes)
    && (forall e :: e in drop ==> Live(e, remotes))
    && need == slots - SlotTotal(drop)
    && (drop != [] ==> SlotTotal(drop[..|drop| - 1]) < slots)
  }

  lemma DiscardStart(u: seq<Tx>, f: seq<Tx>, remotes: ByHash, slots: int)
    ensures Discarding(multiset(u) + multiset(f), u, f, [], remotes, slots, slots)
  {
    assert multiset(u) + multiset(f) + multiset([]) == multiset(u) + multiset(f);
  }

  lemma PopDead(start: multiset<Tx>, u0: seq<Tx>, f0: seq<Tx>, u: seq<Tx>, f: seq<Tx>, tx: Tx, drop: seq<Tx>, remotes: ByHash, slots: int, need: int)
    requires Discarding(start, u0, f0, drop, remotes, slots, need)
    requires multiset(u0) + multiset(f0) == multiset(u) + multiset(f) + multiset{tx} && !Live(tx, remotes)
    ensures Discarding(start, u, f, drop, remotes, slots, need)
  {
    assert multiset(u0) + multiset(f0) + multiset(drop) == multiset(u) + multiset(f) + multiset(drop) + multiset{tx};
    LoseDead(start, multiset(u) + multiset(f) + multiset(drop), tx, remotes);
  }

  lemma Shift(start: multiset<Tx>, u0: seq<Tx>, f0: seq<Tx>, u: seq<Tx>, f: seq<Tx>, drop: seq<Tx>, remotes: ByHash, slots: int, need: int)
    requires Discarding(start, u0, f0, drop, remotes, slots, need)
    requires multiset(u0) + multiset(f0) == multiset(u) + multiset(f)
    ensures Discarding(start, u, f, drop, remotes, slots, need)
  {
  }

  lemma PopLive(start: multiset<Tx>, u0: seq<Tx>, f0: seq<Tx>, u: seq<Tx>, f: seq<Tx>, tx: Tx, drop: seq<Tx>, remotes: ByHash, slots: int, need: int)
    requires Discarding(start, u0, f0, drop, remotes, slots, need) && need > 0
    requires multiset(u0) + multiset(f0) == multiset(u) + multiset(f) + multiset{tx} && Live(tx, remotes)
    ensures Discarding(start, u, f, drop + [tx], remotes, slots, need - NumSlots(tx))
  {
    var drop' := drop + [tx];
    SlotTotalAppend(drop, tx);
    assert drop'[..|drop' | - 1] == drop;
    assert multiset(u0) + multiset(f0) + multiset(drop) == multiset(u) + multiset(f) + multiset(drop');
  }

  /** The eviction loop so far: `now` is what is left; `done` once enough has been dropped. */
  ghost predicate Sinking(before: Heaps, now: Heaps, drop: seq<Tx>, done: bool) {
    && (done && drop != [] ==> forall e :: e in now.floating ==> !Cheaper(None, e, drop[|drop| - 1]))
    && (Layered(before) ==> Layered(now) && forall d, e :: d in drop && e in now.Entries() ==> !Cheaper(None, e, d))
  }

  lemma CheapestFrom(drop: seq<Tx>, h0: Heaps, h: Heaps, after: Heaps)
    requires Cheapest(drop, h, after) && h.urgent <= h0.urgent && h.floating <= h0.floating && h.baseFee == h0.baseFee
    ensures Cheapest(drop, h0, after)
  {
    hide Cheaper;
  }

  lemma SinkStart(h: Heaps, done: bool)
    ensures Sinking(h, h, [], done)
  {
  }

  lemma Sunk(before: Heaps, now: Heaps, drop: seq<Tx>, done: bool)
    requires Sinking(before, now, drop, done) && (done || now.floating == multiset{})
    ensures Cheapest(drop, before, now)
  {
  }

  lemma SinkLess(before: Heaps, h: Heaps, h': Heaps, drop: seq<Tx>)
    requires Sinking(before, h, drop, false) && h'.urgent <= h.urgent && h'.floating <= h.floating && h'.baseFee == h.baseFee
    ensures Sinking(before, h', drop, false)
  {
    hide Cheaper;
  }

  lemma SinkShift(before: Heaps, h: Heaps, h': Heaps, u: seq<Tx>, tx: Tx, drop: seq<Tx>)
    requires Sinking(before, h, drop, false) && h'.baseFee == h.baseFee && h.urgent == multiset(u)
    requires h.urgent == h'.urgent + multiset{tx} && h'.floating == h.floating + multiset{tx}
    requires forall k {:trigger Order(h.baseFee)(u[k], tx)} :: 0 <= k < |u| ==> !Order(h.baseFee)(u[k], tx)
    ensures Sinking(before, h', drop, false)
  {
    hide Cheaper;
    PoppedLeast(h.baseFee, u, tx);
  }

  lemma SinkDrop(before: Heaps, h: Heaps, h': Heaps, f: seq<Tx>, tx: Tx, drop: seq<Tx>)
    requires Sinking(before, h, drop, false) && h'.baseFee == h.baseFee && h.floating == multiset(f)
    requires h'.urgent == h.urgent && h.floating == h'.floating + multiset{tx}
    requires forall k {:trigger Order(None)(f[k], tx)} :: 0 <= k < |f| ==> !Order(None)(f[k], tx)
    ensures Sinking(before, h', drop + [tx], true) && Sinking(before, h', drop + [tx], false)
  {
    hide Cheaper;
    PoppedLeast(None, f, tx);
  }

  lemma PoppedLeast(baseFee: Option<nat>, h: seq<Tx>, tx: Tx)
    requires forall k {:trigger Order(baseFee)(h[k], tx)} :: 0 <= k < |h| ==> !Order(baseFee)(h[k], tx)
    ensures forall e :: e in multiset(h) ==> !Cheaper(baseFee, e, tx)
  {
    forall e | e in multiset(h) ensures !Cheaper(baseFee, e, tx) {
      var k :| 0 <= k < |h| && h[k] == e;
      assert !Order(baseFee)(h[k], tx);
    }
  }

  lemma NothingElse(before: multiset<Tx>, u: seq<Tx>, f: seq<Tx>, drop: seq<Tx>, remotes: ByHash, slots: int)
    requires SameLive(before, multiset(u) + multiset(f) + multiset(drop), remotes) && u == [] && f == [] && SlotTotal(drop) < slots
    ensures !Enough(before, remotes, slots)
  {
    assert multiset(u) + multiset(f) + multiset(drop) == multiset(drop);
    NotEnough(before, drop, remotes, slots);
  }

  lemma DropIsEnough(before: multiset<Tx>, after: multiset<Tx>, drop: seq<Tx>, remotes: ByHash, slots: int)
    requires SameLive(before, after + multiset(drop), remotes) && (forall e :: e in drop ==> Live(e, remotes)) && SlotTotal(drop) >= slots
    ensures Enough(before, remotes, slots)
  {
    assert multiset(drop) <= after + multiset(drop);
    assert LiveChoice(drop, before, remotes);
  }

  lemma SplitLive(baseFee: Option<nat>, u: multiset<Tx>, f: multiset<Tx>, remotes: ByHash, tx: Tx)
    ensures SomeLive(u + f, remotes) <==> SomeLive(u, remotes) || SomeLive(f, remotes)
    ensures !SomeLive(u, remotes) ==> NoneCheaper(baseFee, u, tx, remotes)
    ensures !SomeLive(f, remotes) ==> NoneCheaper(None, f, tx, remotes)
  {
    if SomeLive(u + f, remotes) {
      var e :| e in u + f && Live(e, remotes);
      assert e in u || e in f;
    }
    if SomeLive(u, remotes) {
      var e :| e in u && Live(e, remotes);
      assert e in u + f;
    }
    if SomeLive(f, remotes) {
      var e :| e in f && Live(e, remotes);
      assert e in u + f;
    }
  }
}
