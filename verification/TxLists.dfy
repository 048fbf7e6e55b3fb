/** txList (core/tx_list.go): the transactions of one account, strict (gap-free) for the pending list,
    gapped for the queue, with a cached bound on cost and gas. */
module TxLists {
  import opened Basics
  import opened Transactions
  import opened SortedMap

  /** The abstract value of a list. */
  datatype ListValue = ListValue(strict: bool, items: Items, costcap: nat, gascap: nat)

  predicate Fits(tx: Tx, costLimit: nat, gasLimit: nat) {
    tx.gas <= gasLimit && tx.Cost() <= costLimit
  }

  /** The caps bound every stored transaction. */
  ghost predicate Capped(l: ListValue) {
    forall n :: n in l.items ==> Fits(l.items[n], l.costcap, l.gascap)
  }

  /** A newer transaction with the same nonce must raise both fee cap and tip, each by the bump percentage. */
  predicate Outbids(tx: Tx, prior: Tx, priceBump: nat) {
    && prior.feeCap < tx.feeCap
    && prior.tipCap < tx.tipCap
    && (100 + priceBump) * prior.feeCap / 100 <= tx.feeCap
    && (100 + priceBump) * prior.tipCap / 100 <= tx.tipCap
  }

  predicate Accepts(l: ListValue, tx: Tx, priceBump: nat) {
    tx.nonce in l.items ==> Outbids(tx, l.items[tx.nonce], priceBump)
  }

  function Added(l: ListValue, tx: Tx): ListValue {
    l.(items := l.items[tx.nonce := tx],
       costcap := if l.costcap < tx.Cost() then tx.Cost() else l.costcap,
       gascap := if l.gascap < tx.gas then tx.gas else l.gascap)
  }

  function Over(costLimit: nat, gasLimit: nat): Tx -> bool {
    tx => !Fits(tx, costLimit, gasLimit)
  }

  function Above(nonce: nat): Tx -> bool {
    (tx: Tx) => tx.nonce > nonce
  }

  /** What a full scan finds over the limits. */
  function Unpayable(l: ListValue, costLimit: nat, gasLimit: nat): Items {
    Select(l.items, Over(costLimit, gasLimit))
  }

  /** In a strict list everything above the lowest removed nonce goes too. */
  function Invalidated(l: ListValue, costLimit: nat, gasLimit: nat): Items {
    var bad := Unpayable(l, costLimit, gasLimit);
    if !l.strict || bad == map[] then map[]
    else map n | n in l.items && n !in bad && Min(bad.Keys) < n :: l.items[n]
  }

  function Filtered(l: ListValue, costLimit: nat, gasLimit: nat): ListValue {
    if l.costcap <= costLimit && l.gascap <= gasLimit then l
    else l.(items := l.items - Unpayable(l, costLimit, gasLimit).Keys - Invalidated(l, costLimit, gasLimit).Keys,
            costcap := costLimit, gascap := gasLimit)
  }

  /** What `Remove` invalidates beside the transaction itself. */
  function Stranded(l: ListValue, nonce: nat): Items {
    if l.strict && nonce in l.items then AtLeast(l.items, nonce + 1) else map[]
  }

  function Without(l: ListValue, nonce: nat): ListValue {
    l.(items := l.items - {nonce} - Stranded(l, nonce).Keys)
  }

  ghost predicate GapFree(items: Items) {
    forall n, m, k :: n in items && m in items && n <= k <= m ==> k in items
  }

  // ---------- What the list operations keep ----------

  /** The early return agrees with a full scan: nothing stored exceeds limits at or above the caps. */
  lemma EarlyReturnAgrees(l: ListValue, costLimit: nat, gasLimit: nat)
    requires Capped(l) && l.costcap <= costLimit && l.gascap <= gasLimit
    ensures Unpayable(l, costLimit, gasLimit) == map[]
    ensures Invalidated(l, costLimit, gasLimit) == map[]
  {
  }

  /** Kept, removed and invalidated partition the old contents, and what is kept fits both limits. */
  lemma FilterPartition(l: ListValue, costLimit: nat, gasLimit: nat)
    requires Capped(l)
    ensures var kept, bad, invalid :=
              Filtered(l, costLimit, gasLimit).items, Unpayable(l, costLimit, gasLimit), Invalidated(l, costLimit, gasLimit);
            && kept.Keys + bad.Keys + invalid.Keys == l.items.Keys
            && kept.Keys !! bad.Keys !! invalid.Keys
            && (forall n :: n in kept ==> kept[n] == l.items[n] && Fits(kept[n], costLimit, gasLimit))
            && (forall n :: n in bad ==> bad[n] == l.items[n] && !Fits(bad[n], costLimit, gasLimit))
            && (forall n :: n in invalid ==> invalid[n] == l.items[n])
    ensures Capped(Filtered(l, costLimit, gasLimit))
  {
    if l.costcap <= costLimit && l.gascap <= gasLimit {
      EarlyReturnAgrees(l, costLimit, gasLimit);
    }
  }

  /** A strict list is cut at the first transaction over the limits; so a gap-free one stays gap-free. */
  lemma FilterCutsStrict(l: ListValue, costLimit: nat, gasLimit: nat)
    requires Capped(l) && l.strict
    ensures Unpayable(l, costLimit, gasLimit) == map[] ==> Filtered(l, costLimit, gasLimit).items == l.items
    ensures var bad := Unpayable(l, costLimit, gasLimit); bad != map[] ==>
              Filtered(l, costLimit, gasLimit).items == Below(l.items, Min(bad.Keys))
    ensures GapFree(l.items) ==> GapFree(Filtered(l, costLimit, gasLimit).items)
  {
    FilterPartition(l, costLimit, gasLimit);
    var bad := Unpayable(l, costLimit, gasLimit);
    var kept := Filtered(l, costLimit, gasLimit).items;
    if bad == map[] {
      assert kept == l.items;
    } else {
      assert kept == Below(l.items, Min(bad.Keys));
    }
  }

  lemma RemoveCutsStrict(l: ListValue, nonce: nat)
    requires l.strict && nonce in l.items
    ensures Without(l, nonce).items == Below(l.items, nonce)
    ensures Stranded(l, nonce) == AtLeast(l.items, nonce + 1)
    ensures GapFree(l.items) ==> GapFree(Without(l, nonce).items)
  {
    assert Without(l, nonce).items == Below(l.items, nonce);
  }

  lemma FilterKeepsCaps(l: ListValue, costLimit: nat, gasLimit: nat)
    requires Capped(l)
    ensures Capped(Filtered(l, costLimit, gasLimit))
  {
    FilterPartition(l, costLimit, gasLimit);
  }

  lemma NothingListed()
    ensures Enumerates([], map[])
  {
  }

  lemma NoneListed(s: seq<Tx>, m: Items)
    requires Enumerates(s, m) && |s| == 0
    ensures m == map[] && Enumerates([], map[])
  {
  }

  /** The two passes of `Filter` give the partition of `Filtered`. */
  lemma FilterSteps(l: ListValue, costLimit: nat, gasLimit: nat)
    requires Keyed(l.items)
    ensures Unpayable(l, costLimit, gasLimit) == Select(l.items, Over(costLimit, gasLimit))
    ensures Keyed(Unpayable(l, costLimit, gasLimit))
    ensures l.costcap <= costLimit && l.gascap <= gasLimit ==> Filtered(l, costLimit, gasLimit) == l
    ensures var bad, rest := Unpayable(l, costLimit, gasLimit), Reject(l.items, Over(costLimit, gasLimit));
            && Keyed(rest)
            && (bad == map[] ==> rest == l.items && Invalidated(l, costLimit, gasLimit) == map[])
            && (!l.strict ==> Invalidated(l, costLimit, gasLimit) == map[])
            && (!(l.costcap <= costLimit && l.gascap <= gasLimit) ==>
              var kept := if l.strict && bad != map[] then Reject(rest, Above(Min(bad.Keys))) else rest;
              Keyed(kept) && Filtered(l, costLimit, gasLimit) == l.(items := kept, costcap := costLimit, gascap := gasLimit))
            && (l.strict && bad != map[] ==> Invalidated(l, costLimit, gasLimit) == Select(rest, Above(Min(bad.Keys))))
  {
    var bad, rest := Unpayable(l, costLimit, gasLimit), Reject(l.items, Over(costLimit, gasLimit));
    assert rest == l.items - bad.Keys;
    assert bad == map[] ==> rest == l.items;
    if l.strict && bad != map[] {
      var lowest := Min(bad.Keys);
      assert Invalidated(l, costLimit, gasLimit) == Select(rest, Above(lowest));
      assert Reject(rest, Above(lowest)) == rest - Select(rest, Above(lowest)).Keys;
    }
  }

  lemma RemoveSteps(l: ListValue, nonce: nat)
    requires Keyed(l.items)
    ensures var rest := l.items - {nonce};
            && (l.strict && nonce in l.items ==>
              && Stranded(l, nonce) == Select(rest, Above(nonce))
              && Without(l, nonce) == l.(items := Reject(rest, Above(nonce))))
            && (!(l.strict && nonce in l.items) ==> Stranded(l, nonce) == map[] && Without(l, nonce) == l.(items := rest))
  {
    var rest := l.items - {nonce};
    assert Reject(rest, Above(nonce)) == rest - Select(rest, Above(nonce)).Keys;
    assert l.strict && nonce in l.items ==> Stranded(l, nonce) == Select(rest, Above(nonce));
    assert rest - {} == rest;
  }

  class TxList {
    const strict: bool
    const txs: TxSortedMap
    var costcap: nat
    var gascap: nat

    ghost predicate Valid()
      reads this, txs
    {
      txs.Valid() && Capped(Value())
    }

    ghost function Value(): ListValue
      reads this, txs
    {
      ListValue(strict, txs.items, costcap, gascap)
    }

    constructor (strict: bool)
      ensures Valid() && fresh(txs)
      ensures Value() == ListValue(strict, map[], 0, 0)
    {
      this.strict := strict;
      txs := new TxSortedMap();
      costcap, gascap := 0, 0;
    }

    method Add(tx: Tx, priceBump: nat) returns (inserted: bool, replaced: Option<Tx>)
      requires Valid()
      modifies this, txs
      ensures Valid()
      ensures inserted == Accepts(old(Value()), tx, priceBump)
      ensures Value() == if inserted then Added(old(Value()), tx) else old(Value())
      ensures replaced == if inserted && tx.nonce in old(Value()).items then Some(old(Value()).items[tx.nonce]) else None
    {
      var prior := txs.Get(tx.nonce);
      if prior.Some? {
        if prior.value.feeCap >= tx.feeCap || prior.value.tipCap >= tx.tipCap {
          return false, None;
        }
        var a := 100 + priceBump;
        var thresholdFeeCap := a * prior.value.feeCap / 100;
        var thresholdTip := a * prior.value.tipCap / 100;
        if tx.feeCap < thresholdFeeCap || tx.tipCap < thresholdTip {
          return false, None;
        }
      }
      txs.Put(tx);
      var cost := tx.Cost();
      if costcap < cost {
        costcap := cost;
      }
      if gascap < tx.gas {
        gascap := tx.gas;
      }
      return true, prior;
    }

    method Forward(threshold: nat) returns (removed: seq<Tx>)
      requires Valid()
      modifies this, txs
      ensures Valid()
      ensures Value() == old(Value()).(items := AtLeast(old(Value()).items, threshold))
      ensures removed == Sorted(Below(old(Value()).items, threshold))
    {
      removed := txs.Forward(threshold);
    }

    method Filter(costLimit: nat, gasLimit: nat) returns (removed: seq<Tx>, invalids: seq<Tx>)
      requires Valid()
      modifies this, txs
      ensures Valid()
      ensures Value() == Filtered(old(Value()), costLimit, gasLimit)
      ensures Enumerates(removed, Unpayable(old(Value()), costLimit, gasLimit))
      ensures Enumerates(invalids, Invalidated(old(Value()), costLimit, gasLimit))
    {
      hide Enumerates, Min, Unpayable, Invalidated, Filtered, Keyed, Capped, Select, Reject;
      FilterKeepsCaps(Value(), costLimit, gasLimit);
      FilterSteps(Value(), costLimit, gasLimit);
      if costcap <= costLimit && gascap <= gasLimit {
        EarlyReturnAgrees(Value(), costLimit, gasLimit);
        NothingListed();
        return [], [];
      }
      costcap, gascap := costLimit, gasLimit;
      ghost var bad := Unpayable(old(Value()), costLimit, gasLimit);
      removed := txs.Filter(Over(costLimit, gasLimit));
      if |removed| == 0 {
        NoneListed(removed, bad);
        return [], [];
      }
      invalids := [];
      if strict {
        var lowest := LowestNonce(removed, bad);
        invalids := txs.FilterRaw(Above(lowest));
      } else {
        NothingListed();
      }
      txs.Reheap();
    }

    /** The loop of `Filter` over the removed transactions. */
    static method LowestNonce(removed: seq<Tx>, ghost bad: Items) returns (lowest: nat)
      requires Enumerates(removed, bad) && Keyed(bad) && |removed| > 0
      ensures bad != map[] && lowest == Min(bad.Keys)
    {
      lowest := removed[0].nonce;
      for i := 1 to |removed|
        invariant lowest in bad
        invariant forall j :: 0 <= j < i ==> lowest <= removed[j].nonce
      {
        if lowest > removed[i].nonce {
          lowest := removed[i].nonce;
        }
      }
      forall n | n in bad ensures lowest <= n {
        var j :| 0 <= j < |removed| && removed[j] == bad[n];
      }
    }

    method Cap(threshold: nat) returns (drops: seq<Tx>)
      requires Valid()
      modifies this, txs
      ensures Valid()
      ensures Value() == old(Value()).(items := Lowest(old(Value()).items, threshold))
      ensures HighestFirst(drops, Sorted(old(Value()).items))
      ensures |drops| == if threshold <= |old(Value()).items| then |old(Value()).items| - threshold else 0
    {
      drops := txs.Cap(threshold);
    }

    method Remove(tx: Tx) returns (removed: bool, invalids: seq<Tx>)
      requires Valid()
      modifies this, txs
      ensures Valid()
      ensures removed == (tx.nonce in old(Value()).items)
      ensures Value() == Without(old(Value()), tx.nonce)
      ensures Enumerates(invalids, Stranded(old(Value()), tx.nonce))
    {
      hide Enumerates, Select, Reject;
      var nonce := tx.nonce;
      RemoveSteps(Value(), nonce);
      removed := txs.Remove(nonce);
      invalids := [];
      if removed && strict {
        invalids := txs.Filter(Above(nonce));
      } else {
        NothingListed();
      }
    }

    method Ready(start: nat) returns (ready: seq<Tx>)
      requires Valid()
      modifies this, txs
      ensures Valid()
      ensures Value() == old(Value()).(items := old(Value()).items - ReadyRun(old(Value()).items, start).Keys)
      ensures ready == Sorted(ReadyRun(old(Value()).items, start))
    {
      ready := txs.Ready(start);
    }
  }
}
